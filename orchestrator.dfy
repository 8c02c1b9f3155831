/**
 * The IPv6 configuration orchestrator of `EthernetClass` as state transitions
 * over a value: the three `begin` overloads and `maintain`, each a function from
 * the interface state before the call (and the results its collaborators hand
 * back) to the state after it. The class in module Ethernet performs the same
 * steps imperatively and is proved to agree with these functions.
 */
module EthernetSpec {
  import opened EthernetTypes

  /** Everything the orchestrator reads or writes: the chip registers, the
      stored DNS server (`_dnsServerAddress`), whether the `_dhcp` and
      `_addressautoconfig` pointers are set, the DHCPv6 mode flag
      (`use_sateful`) and the log of collaborator calls made so far. */
  datatype EthernetState = EthernetState(
    regs: Registers,
    dnsServerAddress: Bytes,
    dhcpPresent: bool,
    aacPresent: bool,
    useStateful: int,
    calls: seq<Event>)

  datatype BeginOutcome = BeginOutcome(ret: BeginResult, next: EthernetState)

  datatype MaintainOutcome = MaintainOutcome(rc: int, next: EthernetState)

  /** Default timeouts of `begin(mac)`, used by the overload that calls it. */
  const DEFAULT_TIMEOUT: nat := 60000
  const DEFAULT_RESPONSE_TIMEOUT: nat := 4000

  /** `maintain` consults the DHCPv6 lease exactly in these states. */
  predicate LeaseMaintained(s: EthernetState) {
    s.dhcpPresent && s.useStateful == 1
  }

  /** `begin(mac, timeout, responseTimeout)`. `initOk` is the hardware
      initialisation result, `dad` the detection outcome, `aac` the
      autoconfiguration code, `dhcpRet` what `beginWithDHCPV6` returns and
      `dhcpGua` the address `getGua` reports. Every call appends to the log,
      starting with the hardware initialisation, and the stored DNS server is
      never touched. */
  function BeginStep(s: EthernetState, mac: Bytes, timeout: nat, responseTimeout: nat,
                     initOk: bool, dad: DadOutcome, aac: AacResult, dhcpRet: int,
                     dhcpGua: Bytes): (o: BeginOutcome)
    ensures s.calls < o.next.calls && o.next.calls[|s.calls|] == HardwareInit
    ensures o.next.dnsServerAddress == s.dnsServerAddress
  {
    var bound := s.(dhcpPresent := true, aacPresent := true, calls := s.calls + [HardwareInit]);
    if !initOk then BeginOutcome(Returned(0), bound)
    else
      var configured := bound.(
        regs := bound.regs.(mac := mac, ip := UNSPECIFIED_IPV4),
        calls := Prologue(s.calls, mac));
      var dhcp := Dhcp6Begin(mac, timeout, responseTimeout);
      match aac
      case SlaacRdnss =>
        BeginOutcome(Returned(1), configured.(useStateful := 0))
      case SlaacDhcp6 =>
        BeginOutcome(Returned(if dhcpRet == 1 then dhcpRet else 0),
                     configured.(useStateful := 0, calls := configured.calls + [dhcp]))
      case SfaacDhcp6 =>
        var asked := configured.(useStateful := 1, calls := configured.calls + [dhcp]);
        if dhcpRet == 1 then
          BeginOutcome(Returned(dhcpRet),
                       asked.(regs := asked.regs.(globalUnicast := dhcpGua),
                              calls := asked.calls + [GetGua] + [RegisterWrite(GlobalUnicastReg, dhcpGua)]
                                       + [PortRandomise]))
        else BeginOutcome(Returned(0), asked)
      case OtherCode =>
        BeginOutcome(Unspecified, configured)
  }

  /** `begin(mac, ip, dns, gateway, subnet, timeout, responseTimeout)`: runs
      `begin(mac)` with its default timeouts, then writes IP, gateway and subnet
      whatever that returned; `dns`, `timeout` and `responseTimeout` are unused
      and no value is returned. */
  function BeginWithAddressesStep(s: EthernetState, mac: Bytes, ip: Bytes, dns: Bytes, gateway: Bytes,
                                  subnet: Bytes, timeout: nat, responseTimeout: nat,
                                  initOk: bool, dad: DadOutcome, aac: AacResult, dhcpRet: int,
                                  dhcpGua: Bytes): (o: BeginOutcome)
    ensures s.calls < o.next.calls && o.next.calls[|s.calls|] == HardwareInit
    ensures o.ret == Unspecified
  {
    var inner := BeginStep(s, mac, DEFAULT_TIMEOUT, DEFAULT_RESPONSE_TIMEOUT,
                           initOk, dad, aac, dhcpRet, dhcpGua).next;
    BeginOutcome(Unspecified,
                 inner.(regs := inner.regs.(ip := ip, gateway := gateway, subnet := subnet),
                        calls := inner.calls + [RegisterWrite(IpReg, ip)] + [RegisterWrite(GatewayReg, gateway)]
                                 + [RegisterWrite(SubnetReg, subnet)]))
  }

  /** The eight register writes of the static-configuration `begin`, in order. */
  function StaticWrites(mac: Bytes, ip: Bytes, gateway: Bytes, subnet: Bytes,
                        lla: Bytes, gua: Bytes, sn6: Bytes, gw6: Bytes): seq<Event>
  {
    [RegisterWrite(MacReg, mac), RegisterWrite(IpReg, ip), RegisterWrite(GatewayReg, gateway),
     RegisterWrite(SubnetReg, subnet), RegisterWrite(LinkLocalReg, lla),
     RegisterWrite(GlobalUnicastReg, gua), RegisterWrite(Subnet6Reg, sn6), RegisterWrite(Gateway6Reg, gw6)]
  }

  /** The static-configuration `begin`: after a successful hardware
      initialisation writes every address register and the DNS server. It
      leaves the DHCPv6 client and its mode alone. */
  function BeginStaticStep(s: EthernetState, mac: Bytes, ip: Bytes, dns: Bytes, gateway: Bytes,
                           subnet: Bytes, lla: Bytes, gua: Bytes, sn6: Bytes, gw6: Bytes,
                           initOk: bool): (t: EthernetState)
    ensures s.calls < t.calls && t.calls[|s.calls|] == HardwareInit
    ensures t.dhcpPresent == s.dhcpPresent && t.aacPresent == s.aacPresent && t.useStateful == s.useStateful
  {
    var tried := s.(calls := s.calls + [HardwareInit]);
    if !initOk then tried
    else
      tried.(regs := tried.regs.(mac := mac, ip := ip, gateway := gateway, subnet := subnet,
                                 linkLocal := lla, globalUnicast := gua,
                                 subnet6 := sn6, gateway6 := gw6),
             calls := tried.calls + [RegisterWrite(MacReg, mac)] + [RegisterWrite(IpReg, ip)]
                      + [RegisterWrite(GatewayReg, gateway)] + [RegisterWrite(SubnetReg, subnet)]
                      + [RegisterWrite(LinkLocalReg, lla)] + [RegisterWrite(GlobalUnicastReg, gua)]
                      + [RegisterWrite(Subnet6Reg, sn6)] + [RegisterWrite(Gateway6Reg, gw6)],
             dnsServerAddress := dns)
  }

  /** `maintain`; `leaseCode` is what `checkLease` returns when it is called.
      A poll makes at most one call, and that call is the lease check. */
  function MaintainStep(s: EthernetState, leaseCode: int): (m: MaintainOutcome)
    ensures m.next.calls == s.calls || m.next.calls == s.calls + [CheckLease]
    ensures m.next == s.(calls := m.next.calls)
  {
    if LeaseMaintained(s) then MaintainOutcome(leaseCode, s.(calls := s.calls + [CheckLease]))
    else MaintainOutcome(DHCP_CHECK_NONE, s)
  }

  // ---------------------------------------------------------------------------
  // begin(mac, timeout, responseTimeout)
  // ---------------------------------------------------------------------------

  /** What a successful initialisation is followed by, before the dispatch:
      the MAC and IPv4 writes, then detection, then autoconfiguration. */
  function StartEvents(mac: Bytes): seq<Event> {
    [HardwareInit, RegisterWrite(MacReg, mac), RegisterWrite(IpReg, UNSPECIFIED_IPV4),
     DuplicateAddressDetection(mac), AddressAutoConfiguration(AAC_SOCKET)]
  }

  /** `log` followed by the calls of `StartEvents`, appended one at a time as
      `begin` makes them. The same sequence as `StartEvents`, kept in this
      shape because one-element appends are much cheaper for the verifier to
      match against the method's updates; `PrologueIsStart` relates the two. */
  function Prologue(log: seq<Event>, mac: Bytes): seq<Event> {
    log + [HardwareInit] + [RegisterWrite(MacReg, mac)] + [RegisterWrite(IpReg, UNSPECIFIED_IPV4)]
        + [DuplicateAddressDetection(mac)] + [AddressAutoConfiguration(AAC_SOCKET)]
  }

  lemma PrologueIsStart(log: seq<Event>, mac: Bytes, tail: seq<Event>)
    ensures Prologue(log, mac) == log + StartEvents(mac)
    ensures (Prologue(log, mac) + tail)[..|log| + 5] == log + StartEvents(mac)
    ensures (Prologue(log, mac) + tail)[|log|..] == StartEvents(mac) + tail
  {
    assert Prologue(log, mac) == log + StartEvents(mac);
    assert (log + StartEvents(mac)) + tail == log + (StartEvents(mac) + tail);
  }

  /** The prologue adds no occurrence of a call outside `StartEvents`. */
  lemma PrologueCounts(log: seq<Event>, mac: Bytes, e: Event)
    requires e !in StartEvents(mac)
    ensures Occurrences(Prologue(log, mac), e) == Occurrences(log, e)
  {
    var l1 := log + [HardwareInit];
    var l2 := l1 + [RegisterWrite(MacReg, mac)];
    var l3 := l2 + [RegisterWrite(IpReg, UNSPECIFIED_IPV4)];
    var l4 := l3 + [DuplicateAddressDetection(mac)];
    OccurrencesSnoc(log, HardwareInit, e);
    OccurrencesSnoc(l1, RegisterWrite(MacReg, mac), e);
    OccurrencesSnoc(l2, RegisterWrite(IpReg, UNSPECIFIED_IPV4), e);
    OccurrencesSnoc(l3, DuplicateAddressDetection(mac), e);
    OccurrencesSnoc(l4, AddressAutoConfiguration(AAC_SOCKET), e);
  }

  /** A failed hardware initialisation returns 0 before the MAC is written and
      before detection, autoconfiguration or DHCPv6 run. */
  lemma BeginHardwareFailure(s: EthernetState, mac: Bytes, timeout: nat, responseTimeout: nat,
                             dad: DadOutcome, aac: AacResult, dhcpRet: int, dhcpGua: Bytes)
    ensures var o := BeginStep(s, mac, timeout, responseTimeout, false, dad, aac, dhcpRet, dhcpGua);
      && o.ret == Returned(0)
      && o.next.calls == s.calls + [HardwareInit]
      && o.next.regs == s.regs
      && o.next.dnsServerAddress == s.dnsServerAddress
      && o.next.useStateful == s.useStateful
  {
  }

  /** After a successful initialisation, the MAC and an all-zero IPv4 address
      are written, then detection and then autoconfiguration run, before
      anything else happens. */
  lemma BeginPrologue(s: EthernetState, mac: Bytes, timeout: nat, responseTimeout: nat,
                      dad: DadOutcome, aac: AacResult, dhcpRet: int, dhcpGua: Bytes)
    ensures var o := BeginStep(s, mac, timeout, responseTimeout, true, dad, aac, dhcpRet, dhcpGua);
      && |s.calls| + 5 <= |o.next.calls|
      && o.next.calls[..|s.calls| + 5] == s.calls + StartEvents(mac)
      && o.next.regs.mac == mac
      && o.next.regs.ip == UNSPECIFIED_IPV4
  {
    var o := BeginStep(s, mac, timeout, responseTimeout, true, dad, aac, dhcpRet, dhcpGua);
    var p := Prologue(s.calls, mac);
    var dhcp := Dhcp6Begin(mac, timeout, responseTimeout);
    var write := RegisterWrite(GlobalUnicastReg, dhcpGua);
    if aac == SfaacDhcp6 && dhcpRet == 1 {
      assert o.next.calls == p + [dhcp, GetGua, write, PortRandomise];
      PrologueIsStart(s.calls, mac, [dhcp, GetGua, write, PortRandomise]);
    } else if aac == SfaacDhcp6 || aac == SlaacDhcp6 {
      assert o.next.calls == p + [dhcp];
      PrologueIsStart(s.calls, mac, [dhcp]);
    } else {
      assert o.next.calls == p + [];
      PrologueIsStart(s.calls, mac, []);
    }
  }

  /** The detection outcome has no influence on anything `begin` does. */
  lemma BeginIgnoresDetection(s: EthernetState, mac: Bytes, timeout: nat, responseTimeout: nat,
                              initOk: bool, aac: AacResult, dhcpRet: int, dhcpGua: Bytes)
    ensures BeginStep(s, mac, timeout, responseTimeout, initOk, Unique, aac, dhcpRet, dhcpGua)
         == BeginStep(s, mac, timeout, responseTimeout, initOk, Duplicate, aac, dhcpRet, dhcpGua)
  {
  }

  /** `AAC_SLAAC_RDNSS`: configuration is complete; stateless mode, and the
      prologue's calls are the only ones, so there is no DHCPv6 call and no
      write of the global unicast address. */
  lemma BeginSlaacRdnss(s: EthernetState, mac: Bytes, timeout: nat, responseTimeout: nat,
                        dad: DadOutcome, dhcpRet: int, dhcpGua: Bytes)
    ensures var o := BeginStep(s, mac, timeout, responseTimeout, true, dad, SlaacRdnss, dhcpRet, dhcpGua);
      && o.ret == Returned(1)
      && o.next.useStateful == 0
      && o.next.calls == Prologue(s.calls, mac)
      && o.next.regs.globalUnicast == s.regs.globalUnicast
  {
  }

  /** `AAC_SLAAC_DHCP6`: stateless mode and exactly one DHCPv6 call after the
      prologue; `begin` returns 1 when that call returns 1 and 0 otherwise, and
      the global unicast address is left alone either way. */
  lemma BeginStatelessDhcp(s: EthernetState, mac: Bytes, timeout: nat, responseTimeout: nat,
                           dad: DadOutcome, dhcpRet: int, dhcpGua: Bytes)
    ensures var o := BeginStep(s, mac, timeout, responseTimeout, true, dad, SlaacDhcp6, dhcpRet, dhcpGua);
      && o.next.useStateful == 0
      && o.next.calls == Prologue(s.calls, mac) + [Dhcp6Begin(mac, timeout, responseTimeout)]
      && Occurrences(o.next.calls, Dhcp6Begin(mac, timeout, responseTimeout))
         == Occurrences(s.calls, Dhcp6Begin(mac, timeout, responseTimeout)) + 1
      && (o.ret == Returned(1) <==> dhcpRet == 1)
      && (dhcpRet != 1 ==> o.ret == Returned(0))
      && o.next.regs.globalUnicast == s.regs.globalUnicast
  {
    var dhcp := Dhcp6Begin(mac, timeout, responseTimeout);
    PrologueCounts(s.calls, mac, dhcp);
    OccurrencesSnoc(Prologue(s.calls, mac), dhcp, dhcp);
  }

  /** On the stateful success path the DHCPv6 call is made once more than
      before, however often it was made already. */
  lemma SuccessCounts(log: seq<Event>, mac: Bytes, dhcp: Event, write: Event)
    requires dhcp.Dhcp6Begin? && write.RegisterWrite?
    ensures Occurrences(Prologue(log, mac) + [dhcp] + [GetGua] + [write] + [PortRandomise], dhcp)
            == Occurrences(log, dhcp) + 1
  {
    var p := Prologue(log, mac);
    PrologueCounts(log, mac, dhcp);
    OccurrencesSnoc(p, dhcp, dhcp);
    OccurrencesSnoc(p + [dhcp], GetGua, dhcp);
    OccurrencesSnoc(p + [dhcp] + [GetGua], write, dhcp);
    OccurrencesSnoc(p + [dhcp] + [GetGua] + [write], PortRandomise, dhcp);
  }

  /** `AAC_SFAAC_DHCP6` when the DHCPv6 exchange succeeds: stateful mode, one
      DHCPv6 call, then the granted address is read from the client and written
      to the global unicast register, then the source ports are re-randomised,
      and `begin` returns 1. */
  lemma BeginStatefulDhcpSuccess(s: EthernetState, mac: Bytes, timeout: nat, responseTimeout: nat,
                                 dad: DadOutcome, dhcpGua: Bytes)
    ensures var o := BeginStep(s, mac, timeout, responseTimeout, true, dad, SfaacDhcp6, 1, dhcpGua);
      && o.ret == Returned(1)
      && o.next.useStateful == 1
      && o.next.regs.globalUnicast == dhcpGua
      && o.next.calls
         == Prologue(s.calls, mac)
            + [Dhcp6Begin(mac, timeout, responseTimeout), GetGua, RegisterWrite(GlobalUnicastReg, dhcpGua),
               PortRandomise]
      && Occurrences(o.next.calls, Dhcp6Begin(mac, timeout, responseTimeout))
         == Occurrences(s.calls, Dhcp6Begin(mac, timeout, responseTimeout)) + 1
  {
    var o := BeginStep(s, mac, timeout, responseTimeout, true, dad, SfaacDhcp6, 1, dhcpGua);
    var dhcp := Dhcp6Begin(mac, timeout, responseTimeout);
    var write := RegisterWrite(GlobalUnicastReg, dhcpGua);
    var p := Prologue(s.calls, mac);
    assert o.next.calls == p + [dhcp] + [GetGua] + [write] + [PortRandomise];
    SuccessCounts(s.calls, mac, dhcp, write);
    assert p + [dhcp] + [GetGua] + [write] + [PortRandomise] == p + [dhcp, GetGua, write, PortRandomise];
  }

  /** `AAC_SFAAC_DHCP6` when the DHCPv6 exchange fails: stateful mode all the
      same, one DHCPv6 call, `begin` returns 0 and the global unicast register
      keeps its value. */
  lemma BeginStatefulDhcpFailure(s: EthernetState, mac: Bytes, timeout: nat, responseTimeout: nat,
                                 dad: DadOutcome, dhcpRet: int, dhcpGua: Bytes)
    requires dhcpRet != 1
    ensures var o := BeginStep(s, mac, timeout, responseTimeout, true, dad, SfaacDhcp6, dhcpRet, dhcpGua);
      && o.ret == Returned(0)
      && o.next.useStateful == 1
      && o.next.regs.globalUnicast == s.regs.globalUnicast
      && o.next.calls == Prologue(s.calls, mac) + [Dhcp6Begin(mac, timeout, responseTimeout)]
      && Occurrences(o.next.calls, Dhcp6Begin(mac, timeout, responseTimeout))
         == Occurrences(s.calls, Dhcp6Begin(mac, timeout, responseTimeout)) + 1
  {
    var dhcp := Dhcp6Begin(mac, timeout, responseTimeout);
    PrologueCounts(s.calls, mac, dhcp);
    OccurrencesSnoc(Prologue(s.calls, mac), dhcp, dhcp);
  }

  /** Any other autoconfiguration code: `begin` falls off its end, so no value
      is returned; the mode flag keeps its previous value and only the
      prologue's calls are made. */
  lemma BeginOtherCode(s: EthernetState, mac: Bytes, timeout: nat, responseTimeout: nat,
                       dad: DadOutcome, dhcpRet: int, dhcpGua: Bytes)
    ensures var o := BeginStep(s, mac, timeout, responseTimeout, true, dad, OtherCode, dhcpRet, dhcpGua);
      && o.ret == Unspecified
      && o.next.useStateful == s.useStateful
      && o.next.calls == Prologue(s.calls, mac)
      && o.next.regs.globalUnicast == s.regs.globalUnicast
  {
  }

  /** Over all inputs: what `begin` returns. */
  lemma BeginReturnValue(s: EthernetState, mac: Bytes, timeout: nat, responseTimeout: nat,
                         initOk: bool, dad: DadOutcome, aac: AacResult, dhcpRet: int, dhcpGua: Bytes)
    ensures var o := BeginStep(s, mac, timeout, responseTimeout, initOk, dad, aac, dhcpRet, dhcpGua);
      && (o.ret == Returned(1)
          <==> initOk && (aac == SlaacRdnss || ((aac == SlaacDhcp6 || aac == SfaacDhcp6) && dhcpRet == 1)))
      && (o.ret == Unspecified <==> initOk && aac == OtherCode)
      && (o.ret.Returned? ==> o.ret.code == 0 || o.ret.code == 1)
  {
  }

  /** The calls after `StartEvents` on a path without the stateful success
      neither read the granted address, nor write the global unicast address,
      nor re-randomise the ports, and the prologue writes only the MAC and IPv4
      registers. */
  lemma QuietSuffix(mac: Bytes, dhcp: Event, gua: Bytes, tail: seq<Event>, suffix: seq<Event>)
    requires dhcp.Dhcp6Begin?
    requires tail == [] || tail == [dhcp]
    requires suffix == StartEvents(mac) + tail
    ensures forall e :: e in suffix && e.RegisterWrite? ==> e.reg == MacReg || e.reg == IpReg
    ensures GetGua !in suffix && RegisterWrite(GlobalUnicastReg, gua) !in suffix && PortRandomise !in suffix
  {
  }

  /** The calls of the stateful success path write the MAC, IPv4 and global
      unicast registers only. */
  lemma SuccessSuffix(mac: Bytes, dhcp: Event, gua: Bytes, suffix: seq<Event>)
    requires dhcp.Dhcp6Begin?
    requires suffix == StartEvents(mac) + [dhcp, GetGua, RegisterWrite(GlobalUnicastReg, gua), PortRandomise]
    ensures forall e :: e in suffix && e.RegisterWrite? ==>
              e.reg == MacReg || e.reg == IpReg || e.reg == GlobalUnicastReg
    ensures GetGua in suffix && RegisterWrite(GlobalUnicastReg, gua) in suffix && PortRandomise in suffix
  {
    assert suffix[6] == GetGua && suffix[7] == RegisterWrite(GlobalUnicastReg, gua);
    assert suffix[8] == PortRandomise;
  }

  /** Over all inputs: `begin` writes the MAC, the IPv4 address and the global
      unicast address and no other register, leaves the stored DNS server alone,
      and reads the granted address and writes it to the global unicast
      register only on stateful DHCPv6 success, which is also exactly when the
      ports are re-randomised. */
  lemma BeginRegisterFrame(s: EthernetState, mac: Bytes, timeout: nat, responseTimeout: nat,
                           initOk: bool, dad: DadOutcome, aac: AacResult, dhcpRet: int, dhcpGua: Bytes)
    ensures var o := BeginStep(s, mac, timeout, responseTimeout, initOk, dad, aac, dhcpRet, dhcpGua);
      && o.next.regs == s.regs.(mac := o.next.regs.mac, ip := o.next.regs.ip,
                                globalUnicast := o.next.regs.globalUnicast)
      && o.next.dnsServerAddress == s.dnsServerAddress
      && (forall e :: e in o.next.calls[|s.calls|..] && e.RegisterWrite? ==>
            e.reg == MacReg || e.reg == IpReg || e.reg == GlobalUnicastReg)
      && (o.next.regs.globalUnicast != s.regs.globalUnicast ==>
            initOk && aac == SfaacDhcp6 && dhcpRet == 1 && o.next.regs.globalUnicast == dhcpGua)
      && (GetGua in o.next.calls[|s.calls|..] <==> initOk && aac == SfaacDhcp6 && dhcpRet == 1)
      && (RegisterWrite(GlobalUnicastReg, dhcpGua) in o.next.calls[|s.calls|..]
          <==> initOk && aac == SfaacDhcp6 && dhcpRet == 1)
      && (PortRandomise in o.next.calls[|s.calls|..] <==> initOk && aac == SfaacDhcp6 && dhcpRet == 1)
  {
    var o := BeginStep(s, mac, timeout, responseTimeout, initOk, dad, aac, dhcpRet, dhcpGua);
    var suffix := o.next.calls[|s.calls|..];
    var dhcp := Dhcp6Begin(mac, timeout, responseTimeout);
    var write := RegisterWrite(GlobalUnicastReg, dhcpGua);
    if !initOk {
      assert suffix == [HardwareInit];
    } else if aac == SfaacDhcp6 && dhcpRet == 1 {
      BeginStatefulDhcpSuccess(s, mac, timeout, responseTimeout, dad, dhcpGua);
      PrologueIsStart(s.calls, mac, [dhcp, GetGua, write, PortRandomise]);
      SuccessSuffix(mac, dhcp, dhcpGua, suffix);
    } else if aac == SfaacDhcp6 || aac == SlaacDhcp6 {
      assert o.next.calls == Prologue(s.calls, mac) + [dhcp];
      PrologueIsStart(s.calls, mac, [dhcp]);
      QuietSuffix(mac, dhcp, dhcpGua, [dhcp], suffix);
    } else {
      assert o.next.calls == Prologue(s.calls, mac) + [];
      PrologueIsStart(s.calls, mac, []);
      QuietSuffix(mac, dhcp, dhcpGua, [], suffix);
    }
  }

  /** Over all inputs: which mode `begin` leaves lease maintenance in. Stateful
      mode is selected by `AAC_SFAAC_DHCP6` even when the exchange fails; a
      failed initialisation or an unknown code keeps the previous mode. */
  lemma BeginSelectsLeaseMaintenance(s: EthernetState, mac: Bytes, timeout: nat, responseTimeout: nat,
                                     initOk: bool, dad: DadOutcome, aac: AacResult, dhcpRet: int,
                                     dhcpGua: Bytes)
    ensures var o := BeginStep(s, mac, timeout, responseTimeout, initOk, dad, aac, dhcpRet, dhcpGua);
      && o.next.dhcpPresent && o.next.aacPresent
      && (LeaseMaintained(o.next)
          <==> (if initOk && aac != OtherCode then aac == SfaacDhcp6 else s.useStateful == 1))
  {
  }

  /** `begin` followed by one `maintain`: the lease code reaches the caller
      exactly when the state `begin` leaves selects lease maintenance. */
  lemma BeginThenMaintain(s: EthernetState, mac: Bytes, timeout: nat, responseTimeout: nat,
                          initOk: bool, dad: DadOutcome, aac: AacResult, dhcpRet: int, dhcpGua: Bytes,
                          leaseCode: int)
    requires leaseCode != DHCP_CHECK_NONE
    ensures var o := BeginStep(s, mac, timeout, responseTimeout, initOk, dad, aac, dhcpRet, dhcpGua);
      MaintainStep(o.next, leaseCode).rc == leaseCode
      <==> (if initOk && aac != OtherCode then aac == SfaacDhcp6 else s.useStateful == 1)
  {
    BeginSelectsLeaseMaintenance(s, mac, timeout, responseTimeout, initOk, dad, aac, dhcpRet, dhcpGua);
  }

  // ---------------------------------------------------------------------------
  // begin(mac, ip, dns, gateway, subnet, timeout, responseTimeout)
  // ---------------------------------------------------------------------------

  /** The IP, gateway and subnet registers end up holding the arguments even
      when hardware initialisation failed; the DNS argument is not stored, no
      value is returned, and any DHCPv6 exchange uses the default timeouts
      rather than the caller's. */
  lemma BeginWithAddressesEffects(s: EthernetState, mac: Bytes, ip: Bytes, dns: Bytes, gateway: Bytes,
                                  subnet: Bytes, timeout: nat, responseTimeout: nat,
                                  initOk: bool, dad: DadOutcome, aac: AacResult, dhcpRet: int,
                                  dhcpGua: Bytes)
    ensures var o := BeginWithAddressesStep(s, mac, ip, dns, gateway, subnet, timeout, responseTimeout,
                                            initOk, dad, aac, dhcpRet, dhcpGua);
      var inner := BeginStep(s, mac, DEFAULT_TIMEOUT, DEFAULT_RESPONSE_TIMEOUT,
                             initOk, dad, aac, dhcpRet, dhcpGua).next;
      && o.ret == Unspecified
      && o.next.regs.ip == ip && o.next.regs.gateway == gateway && o.next.regs.subnet == subnet
      && o.next.dnsServerAddress == s.dnsServerAddress
      && o.next == inner.(regs := o.next.regs, calls := o.next.calls)
      && o.next.regs == inner.regs.(ip := ip, gateway := gateway, subnet := subnet)
      && o.next.calls
         == inner.calls + [RegisterWrite(IpReg, ip), RegisterWrite(GatewayReg, gateway),
                           RegisterWrite(SubnetReg, subnet)]
      && (forall e :: e in o.next.calls[|s.calls|..] && e.Dhcp6Begin? ==>
            e.timeout == DEFAULT_TIMEOUT && e.responseTimeout == DEFAULT_RESPONSE_TIMEOUT)
  {
  }

  // ---------------------------------------------------------------------------
  // begin(mac, ip, dns, gateway, subnet, lla, gua, sn6, gw6)
  // ---------------------------------------------------------------------------

  /** All or nothing: after a successful initialisation every address register
      and the DNS server hold the arguments; after a failed one nothing but the
      initialisation attempt has happened. Neither touches the DHCPv6 state, so
      a stateful lease set up earlier is still maintained. */
  lemma BeginStaticAllOrNothing(s: EthernetState, mac: Bytes, ip: Bytes, dns: Bytes, gateway: Bytes,
                                subnet: Bytes, lla: Bytes, gua: Bytes, sn6: Bytes, gw6: Bytes,
                                initOk: bool)
    ensures var t := BeginStaticStep(s, mac, ip, dns, gateway, subnet, lla, gua, sn6, gw6, initOk);
      && t.calls
         == s.calls + [HardwareInit]
            + (if initOk then StaticWrites(mac, ip, gateway, subnet, lla, gua, sn6, gw6) else [])
      && t.dhcpPresent == s.dhcpPresent && t.aacPresent == s.aacPresent
      && t.useStateful == s.useStateful
      && LeaseMaintained(t) == LeaseMaintained(s)
      && (initOk ==>
            && t.regs == Registers(mac, ip, gateway, subnet, lla, gua, sn6, gw6, s.regs.retransmissionTime)
            && t.dnsServerAddress == dns)
      && (!initOk ==> t.regs == s.regs && t.dnsServerAddress == s.dnsServerAddress)
  {
    var l := s.calls + [HardwareInit];
    if initOk {
      assert l + [RegisterWrite(MacReg, mac)] + [RegisterWrite(IpReg, ip)]
             + [RegisterWrite(GatewayReg, gateway)] + [RegisterWrite(SubnetReg, subnet)]
             + [RegisterWrite(LinkLocalReg, lla)] + [RegisterWrite(GlobalUnicastReg, gua)]
             + [RegisterWrite(Subnet6Reg, sn6)] + [RegisterWrite(Gateway6Reg, gw6)]
          == l + StaticWrites(mac, ip, gateway, subnet, lla, gua, sn6, gw6);
    }
  }

  // ---------------------------------------------------------------------------
  // maintain
  // ---------------------------------------------------------------------------

  /** `maintain` returns `DHCP_CHECK_NONE` without checking the lease unless a
      DHCPv6 client exists in stateful mode; then it returns the lease check's
      code unchanged. No register, no stored address and no mode changes. */
  lemma MaintainGate(s: EthernetState, leaseCode: int)
    ensures var m := MaintainStep(s, leaseCode);
      && (!LeaseMaintained(s) ==> m.rc == DHCP_CHECK_NONE && m.next.calls == s.calls)
      && (LeaseMaintained(s) ==> m.rc == leaseCode && m.next.calls == s.calls + [CheckLease])
      && m.next.regs == s.regs
      && m.next.dnsServerAddress == s.dnsServerAddress
      && m.next.useStateful == s.useStateful
      && m.next.dhcpPresent == s.dhcpPresent
  {
  }

  /** The codes a host loop sees when it calls `maintain` once per code in
      `leaseCodes`, and the state after the last call. */
  function MaintainPolls(s: EthernetState, leaseCodes: seq<int>): (seq<int>, EthernetState)
    decreases |leaseCodes|
  {
    if leaseCodes == [] then ([], s)
    else
      var m := MaintainStep(s, leaseCodes[0]);
      var rest := MaintainPolls(m.next, leaseCodes[1..]);
      ([m.rc] + rest.0, rest.1)
  }

  /** Polling `maintain` repeatedly: in stateful mode every lease-check code is
      passed through and each poll checks the lease once; otherwise every poll
      answers `DHCP_CHECK_NONE` and checks nothing. Polling never changes the
      registers, the stored DNS server or the mode, and never restarts DHCPv6. */
  lemma {:induction false} MaintainPollsProperties(s: EthernetState, leaseCodes: seq<int>)
    ensures var (rcs, t) := MaintainPolls(s, leaseCodes);
      && |rcs| == |leaseCodes|
      && (LeaseMaintained(s) ==> rcs == leaseCodes)
      && (!LeaseMaintained(s) ==> forall i :: 0 <= i < |rcs| ==> rcs[i] == DHCP_CHECK_NONE)
      && t.regs == s.regs && t.dnsServerAddress == s.dnsServerAddress
      && t.useStateful == s.useStateful && t.dhcpPresent == s.dhcpPresent
      && Occurrences(t.calls, CheckLease)
         == Occurrences(s.calls, CheckLease) + (if LeaseMaintained(s) then |leaseCodes| else 0)
      && (forall e :: e != CheckLease ==> Occurrences(t.calls, e) == Occurrences(s.calls, e))
    decreases |leaseCodes|
  {
    if leaseCodes != [] {
      var m := MaintainStep(s, leaseCodes[0]);
      MaintainPollsProperties(m.next, leaseCodes[1..]);
      if LeaseMaintained(s) {
        forall e ensures Occurrences(m.next.calls, e) == Occurrences(s.calls, e) + (if e == CheckLease then 1 else 0) {
          OccurrencesSnoc(s.calls, CheckLease, e);
        }
      }
    }
  }
}
