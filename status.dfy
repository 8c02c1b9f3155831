/**
 * The three pure pieces of the Ethernet interface: the link-status mapping,
 * the chip-identity mapping and the retransmission-timeout conversion.
 */
module EthernetStatus {
  import opened EthernetTypes

  /** Raw link codes reported by the chip driver (`W5100Linkstatus`). */
  const UNKNOWN: int := 0
  const LINK_ON: int := 1
  const LINK_OFF: int := 2

  datatype EthernetLinkStatus = Unknown | LinkON | LinkOFF

  datatype EthernetHardwareStatus =
    EthernetNoHardware | EthernetW5100 | EthernetW5200 | EthernetW5500 | EthernetW6100

  /** `linkStatus`: the driver's link code as the interface's link status. */
  function LinkStatusOf(code: int): (r: EthernetLinkStatus)
    ensures r == LinkON <==> code == LINK_ON
    ensures r == LinkOFF <==> code == LINK_OFF
    ensures r == Unknown <==> code != LINK_ON && code != LINK_OFF
  {
    match code
    case 0 => Unknown
    case 1 => LinkON
    case 2 => LinkOFF
    case _ => Unknown
  }

  /** `hardwareStatus`: the chip identifier as the kind of chip present. */
  function HardwareStatusOf(chip: byte): (r: EthernetHardwareStatus)
    ensures r == EthernetW5100 <==> chip == 51
    ensures r == EthernetW5200 <==> chip == 52
    ensures r == EthernetW5500 <==> chip == 55
    ensures r == EthernetW6100 <==> chip == 61
    ensures r == EthernetNoHardware <==> chip !in {51, 52, 55, 61}
  {
    match chip
    case 51 => EthernetW5100
    case 52 => EthernetW5200
    case 55 => EthernetW5500
    case 61 => EthernetW6100
    case _ => EthernetNoHardware
  }

  /** Two identifiers that report the same chip are the same identifier. */
  lemma HardwareStatusDeterminesChip(a: byte, b: byte)
    requires HardwareStatusOf(a) == HardwareStatusOf(b) != EthernetNoHardware
    ensures a == b
  {
  }

  /** The largest timeout in milliseconds whose tenfold fits the register. */
  const MAX_RETRANSMISSION_MS: uint16 := 6553

  /** Conversion of an `int` to `uint16_t`, as C does it: a value that fits is
      kept, and any value is congruent to its conversion modulo 2^16. */
  function Truncate16(x: nat): (r: uint16)
    ensures x < 0x1_0000 ==> r as int == x
    ensures r as int <= x && (x - r as int) % 0x1_0000 == 0
  {
    (x % 0x1_0000) as uint16
  }

  /** `setRetransmissionTimeout`: the register value, in units of 100 us, for a
      timeout in milliseconds. The clamp keeps the product clear of the 16-bit
      truncation, so the register holds exactly ten times the clamped timeout. */
  function RetransmissionTicks(milliseconds: uint16): (ticks: uint16)
    ensures milliseconds <= MAX_RETRANSMISSION_MS ==> ticks as int == milliseconds as int * 10
    ensures milliseconds > MAX_RETRANSMISSION_MS ==> ticks == 65530
    ensures ticks <= 65530 && ticks % 10 == 0
  {
    var clamped := if milliseconds > MAX_RETRANSMISSION_MS then MAX_RETRANSMISSION_MS else milliseconds;
    Truncate16(clamped as nat * 10)
  }

  /** A longer requested timeout never gives a shorter register value. */
  lemma RetransmissionTicksMonotone(a: uint16, b: uint16)
    requires a <= b
    ensures RetransmissionTicks(a) <= RetransmissionTicks(b)
  {
  }

  /** The clamp bound is tight: the tenfold of a timeout survives the 16-bit
      conversion exactly when the timeout is at most `MAX_RETRANSMISSION_MS`, so
      without the clamp every longer timeout would wrap. */
  lemma ClampBoundIsTight(milliseconds: uint16)
    ensures milliseconds <= MAX_RETRANSMISSION_MS
            <==> Truncate16(milliseconds as nat * 10) as int == milliseconds as int * 10
  {
  }
}
