/**
 * Values shared by the model of the Ethernet interface: the register file of
 * the network chip, the outcome codes of the collaborators the configuration
 * orchestrator calls, and the log of those calls.
 */
module EthernetTypes {

  newtype byte = x: int | 0 <= x < 0x100

  /** The width of the chip's retransmission-time register and of the `uint16_t`
      parameters that carry it. */
  newtype uint16 = x: int | 0 <= x < 0x1_0000

  type Bytes = seq<byte>

  /** The interface registers that the orchestrator writes, each an abstract
      byte string, plus the retransmission-time register. */
  datatype Registers = Registers(
    mac: Bytes,
    ip: Bytes,
    gateway: Bytes,
    subnet: Bytes,
    linkLocal: Bytes,
    globalUnicast: Bytes,
    subnet6: Bytes,
    gateway6: Bytes,
    retransmissionTime: uint16)

  /** `IPAddress(0,0,0,0)`, written to the IP register before autoconfiguration. */
  const UNSPECIFIED_IPV4: Bytes := [0, 0, 0, 0]

  /** The hardware socket handed to address autoconfiguration. */
  const AAC_SOCKET: nat := 7

  /** The code returned by address autoconfiguration: the three codes `begin`
      dispatches on (`AAC_SLAAC_RDNSS`, `AAC_SLAAC_DHCP6`, `AAC_SFAAC_DHCP6`)
      and every other value of the `uint8_t` result. */
  datatype AacResult = SlaacRdnss | SlaacDhcp6 | SfaacDhcp6 | OtherCode

  /** What duplicate address detection found; `begin` never looks at it. */
  datatype DadOutcome = Unique | Duplicate

  /** The value `begin` hands back: a returned `int`, or no value at all when
      control falls off the end of a non-void function. */
  datatype BeginResult = Returned(code: int) | Unspecified

  /** The address registers, as named by the driver's setters. */
  datatype Register =
    MacReg | IpReg | GatewayReg | SubnetReg | LinkLocalReg | GlobalUnicastReg | Subnet6Reg | Gateway6Reg

  /** One logged step of the orchestrator: a call into hardware initialisation,
      detection, autoconfiguration or the DHCPv6 client (`beginWithDHCPV6`,
      `getGua`, `checkLease`), a register write, or the port re-randomisation.
      SPI transactions and serial output are not logged. */
  datatype Event =
    | HardwareInit
    | RegisterWrite(reg: Register, value: Bytes)
    | RetransmissionTimeWrite(ticks: uint16)
    | DuplicateAddressDetection(mac: Bytes)
    | AddressAutoConfiguration(socket: nat)
    | Dhcp6Begin(mac: Bytes, timeout: nat, responseTimeout: nat)
    | GetGua
    | PortRandomise
    | CheckLease

  /** The lease-check code meaning "nothing done". */
  const DHCP_CHECK_NONE: int := 0

  /** Number of entries of `log` equal to `e`, counted from the end. */
  function Occurrences(log: seq<Event>, e: Event): (n: nat)
    ensures n <= |log|
    ensures n == 0 <==> e !in log
  {
    if log == [] then 0
    else Occurrences(log[..|log| - 1], e) + (if log[|log| - 1] == e then 1 else 0)
  }

  lemma OccurrencesSnoc(log: seq<Event>, x: Event, e: Event)
    ensures Occurrences(log + [x], e) == Occurrences(log, e) + (if x == e then 1 else 0)
  {
    assert (log + [x])[..|log|] == log;
  }
}
