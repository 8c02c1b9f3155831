/**
 * `EthernetClass` as an object whose methods update its fields in the order
 * the source does; each method is proved to agree with the step function of
 * module EthernetSpec, whose properties are proved there. Collaborators
 * (hardware initialisation, detection, autoconfiguration, the DHCPv6 client)
 * are not modelled: what they return is passed in. The ghost log `calls`
 * records, in order, each call into them (`getGua` and `checkLease`
 * included), each register write and the port re-randomisation.
 */
module Ethernet {
  import opened EthernetTypes
  import opened EthernetSpec
  import opened EthernetStatus

  class EthernetClass {
    /** The chip's interface registers. */
    var regs: Registers
    /** `_dnsServerAddress`. */
    var dnsServerAddress: Bytes
    /** `_dhcp != NULL` and `_addressautoconfig != NULL`. */
    var dhcpPresent: bool
    var aacPresent: bool
    /** `_dhcp->use_sateful`. */
    var useStateful: int
    /** Every collaborator call made so far, oldest first. */
    ghost var calls: seq<Event>

    ghost function State(): EthernetState
      reads this
    {
      EthernetState(regs, dnsServerAddress, dhcpPresent, aacPresent, useStateful, calls)
    }

    /** The global interface object, with both pointers still NULL. */
    constructor (hardware: Registers, dns: Bytes)
      ensures State() == EthernetState(hardware, dns, false, false, 0, [])
    {
      regs := hardware;
      dnsServerAddress := dns;
      dhcpPresent := false;
      aacPresent := false;
      useStateful := 0;
      calls := [];
    }

    /** `begin(mac, timeout, responseTimeout)`. */
    method Begin(mac: Bytes, timeout: nat, responseTimeout: nat,
                 initOk: bool, dad: DadOutcome, aac: AacResult, dhcpRet: int, dhcpGua: Bytes)
      returns (ret: BeginResult)
      modifies this
      ensures var o := BeginStep(old(State()), mac, timeout, responseTimeout,
                                 initOk, dad, aac, dhcpRet, dhcpGua);
        ret == o.ret && State() == o.next
    {
      dhcpPresent := true;
      aacPresent := true;

      calls := calls + [HardwareInit];
      if !initOk {
        return Returned(0);
      }
      regs := regs.(mac := mac);
      calls := calls + [RegisterWrite(MacReg, mac)];
      regs := regs.(ip := UNSPECIFIED_IPV4);
      calls := calls + [RegisterWrite(IpReg, UNSPECIFIED_IPV4)];

      // the detection outcome is not looked at
      calls := calls + [DuplicateAddressDetection(mac)];

      calls := calls + [AddressAutoConfiguration(AAC_SOCKET)];
      ghost var configured := State();
      assert configured == old(State()).(dhcpPresent := true, aacPresent := true,
                                         regs := old(regs).(mac := mac, ip := UNSPECIFIED_IPV4),
                                         calls := Prologue(old(calls), mac));
      var result := aac;

      if result == SlaacRdnss {
        useStateful := 0;
        assert State() == configured.(useStateful := 0);
        return Returned(1);
      } else if result == SlaacDhcp6 {
        useStateful := 0;
        calls := calls + [Dhcp6Begin(mac, timeout, responseTimeout)];
        assert State() == configured.(useStateful := 0,
                                      calls := configured.calls + [Dhcp6Begin(mac, timeout, responseTimeout)]);
        var r := dhcpRet;
        if r == 1 {
          return Returned(r);
        } else {
          return Returned(0);
        }
      } else if result == SfaacDhcp6 {
        useStateful := 1;
        calls := calls + [Dhcp6Begin(mac, timeout, responseTimeout)];
        ghost var asked := State();
        assert asked == configured.(useStateful := 1,
                                    calls := configured.calls + [Dhcp6Begin(mac, timeout, responseTimeout)]);
        var r := dhcpRet;
        if r == 1 {
          calls := calls + [GetGua];
          regs := regs.(globalUnicast := dhcpGua);
          calls := calls + [RegisterWrite(GlobalUnicastReg, dhcpGua)];
          calls := calls + [PortRandomise];
          assert State() == asked.(regs := asked.regs.(globalUnicast := dhcpGua),
                                   calls := asked.calls + [GetGua] + [RegisterWrite(GlobalUnicastReg, dhcpGua)]
                                            + [PortRandomise]);
          return Returned(r);
        } else {
          return Returned(0);
        }
      }
      // control reaches the end of the function without a return statement
      ret := Unspecified;
    }

    /** `begin(mac, ip, dns, gateway, subnet, timeout, responseTimeout)`. */
    method BeginWithAddresses(mac: Bytes, ip: Bytes, dns: Bytes, gateway: Bytes, subnet: Bytes,
                              timeout: nat, responseTimeout: nat,
                              initOk: bool, dad: DadOutcome, aac: AacResult, dhcpRet: int, dhcpGua: Bytes)
      returns (ret: BeginResult)
      modifies this
      ensures var o := BeginWithAddressesStep(old(State()), mac, ip, dns, gateway, subnet,
                                              timeout, responseTimeout, initOk, dad, aac, dhcpRet, dhcpGua);
        ret == o.ret && State() == o.next
    {
      var inner := Begin(mac, DEFAULT_TIMEOUT, DEFAULT_RESPONSE_TIMEOUT, initOk, dad, aac, dhcpRet, dhcpGua);
      regs := regs.(ip := ip);
      calls := calls + [RegisterWrite(IpReg, ip)];
      regs := regs.(gateway := gateway);
      calls := calls + [RegisterWrite(GatewayReg, gateway)];
      regs := regs.(subnet := subnet);
      calls := calls + [RegisterWrite(SubnetReg, subnet)];
      ret := Unspecified;
    }

    /** `begin(mac, ip, dns, gateway, subnet, lla, gua, sn6, gw6)`. */
    method BeginStatic(mac: Bytes, ip: Bytes, dns: Bytes, gateway: Bytes, subnet: Bytes,
                       lla: Bytes, gua: Bytes, sn6: Bytes, gw6: Bytes, initOk: bool)
      modifies this
      ensures State() == BeginStaticStep(old(State()), mac, ip, dns, gateway, subnet,
                                         lla, gua, sn6, gw6, initOk)
    {
      calls := calls + [HardwareInit];
      if !initOk {
        return;
      }
      regs := regs.(mac := mac);
      calls := calls + [RegisterWrite(MacReg, mac)];
      regs := regs.(ip := ip);
      calls := calls + [RegisterWrite(IpReg, ip)];
      regs := regs.(gateway := gateway);
      calls := calls + [RegisterWrite(GatewayReg, gateway)];
      regs := regs.(subnet := subnet);
      calls := calls + [RegisterWrite(SubnetReg, subnet)];
      regs := regs.(linkLocal := lla);
      calls := calls + [RegisterWrite(LinkLocalReg, lla)];
      regs := regs.(globalUnicast := gua);
      calls := calls + [RegisterWrite(GlobalUnicastReg, gua)];
      regs := regs.(subnet6 := sn6);
      calls := calls + [RegisterWrite(Subnet6Reg, sn6)];
      regs := regs.(gateway6 := gw6);
      calls := calls + [RegisterWrite(Gateway6Reg, gw6)];
      dnsServerAddress := dns;
    }

    /** `maintain`; `leaseCode` is what `checkLease` would return. */
    method Maintain(leaseCode: int) returns (rc: int)
      modifies this
      ensures var m := MaintainStep(old(State()), leaseCode);
        rc == m.rc && State() == m.next
    {
      rc := DHCP_CHECK_NONE;
      if dhcpPresent && useStateful == 1 {
        calls := calls + [CheckLease];
        rc := leaseCode;
        // every lease-check code leaves the registers as they are: the
        // write-back after a rebind is compiled out
      }
    }

    /** `setRetransmissionTimeout`: only the retransmission-time register changes. */
    method SetRetransmissionTimeout(milliseconds: uint16)
      modifies this
      ensures State() == old(State()).(regs := old(regs).(retransmissionTime := RetransmissionTicks(milliseconds)),
                                       calls := old(calls) + [RetransmissionTimeWrite(RetransmissionTicks(milliseconds))])
    {
      var ms := milliseconds;
      if ms > MAX_RETRANSMISSION_MS {
        ms := MAX_RETRANSMISSION_MS;
      }
      regs := regs.(retransmissionTime := Truncate16(ms as nat * 10));
      calls := calls + [RetransmissionTimeWrite(regs.retransmissionTime)];
    }
  }
}
