# IPv6 configuration orchestrator of the WIZnet Ethernet library

This project models `EthernetClass` from `src/Ethernet.cpp` of the WIZnet Ethernet
library for Arduino. The part modelled is the IPv6 address-configuration
orchestrator and the small pure mappings next to it.

`begin(mac, timeout, responseTimeout)` does four things in order:

1. It initialises the network chip.
2. It writes the MAC address and an all-zero IPv4 address.
3. It runs duplicate address detection, then address autoconfiguration.
4. It dispatches on the autoconfiguration code. The code can mean that
   configuration is complete, that stateless DHCPv6 is needed, or that stateful
   DHCPv6 is needed. In the stateful case, a granted global unicast address is
   written to the chip.

`maintain()` asks the DHCPv6 client to check its lease, but only in stateful
mode. Two more `begin` overloads write addresses given by the caller. The
pure parts are:

- the link-status mapping;
- the chip-identity mapping;
- the retransmission-timeout conversion.

Layout:

- `types.dfy` (module `EthernetTypes`) holds the shared types:
  - the chip's register file, as a record of byte strings;
  - the autoconfiguration codes;
  - the `begin` result. It is either a returned `int` or `Unspecified`, which
    stands for a non-void function that falls off its end.
  - `Event`, one call into a collaborator or one register write, and a
    counting function over logs of these events.
- `status.dfy` (module `EthernetStatus`) holds `LinkStatusOf`,
  `HardwareStatusOf` and `RetransmissionTicks`, with the 16-bit truncation
  (`Truncate16`) written out.
- `orchestrator.dfy` (module `EthernetSpec`) holds the orchestrator as a value:
  - `EthernetState` holds the registers, `_dnsServerAddress`, whether the
    `_dhcp` and `_addressautoconfig` pointers are set, `use_sateful`, and the
    log of collaborator calls.
  - There is one step function per operation: `BeginStep`,
    `BeginWithAddressesStep`, `BeginStaticStep` and `MaintainStep`.
  - The lemmas here state what the source promises.
- `ethernet.dfy` (module `Ethernet`) holds the class `EthernetClass`. Its
  methods update the fields one at a time, in the order the source does. Each
  `begin` method and `Maintain` is proved to return and leave exactly what its
  step function gives. `SetRetransmissionTimeout` is proved against
  `RetransmissionTicks`, and the constructor states the initial object.

The collaborators are not modelled. Their results are parameters of each
operation:

- `initOk` is whether `W5100.init()` succeeded.
- `dad` is the detection outcome.
- `aac` is the autoconfiguration code.
- `dhcpRet` is what `beginWithDHCPV6` returns.
- `dhcpGua` is what `getGua` returns.
- `leaseCode` is what `checkLease` returns.

A ghost log records, in call order:

- each call into hardware initialisation, detection and autoconfiguration;
- each call into the DHCPv6 client: `beginWithDHCPV6`, `getGua` and
  `checkLease`;
- each register write;
- the port re-randomisation.

SPI transactions and serial output are not logged. The lemmas use the log to
say which engines ran, how many times, and in what order relative to the
register writes.

Several headers are not part of this model: `Ethernet.h`, `Dhcp6.h`,
`AddressAutoConfig.h` and `utility/w5100.h`. Some constants come from them, so
the model picks these values:

- `DHCP_CHECK_NONE` is 0. This follows the Arduino Ethernet `Dhcp.h`
  convention.
- The driver's link codes `UNKNOWN`, `LINK_ON` and `LINK_OFF` are 0, 1 and 2,
  their declaration order.
- The default timeouts of `begin(mac)` are 60000 ms and 4000 ms.
- The autoconfiguration codes carry no numeric values. They are a closed
  datatype with one extra case, `OtherCode`, for every other value.

Behaviour of the code that the model keeps:

- `begin` does not branch on the detection result. The result at
  `src/Ethernet.cpp:55` is discarded, so nothing `begin` itself does depends
  on it (`BeginIgnoresDetection`).
- A configuration that fails after initialisation still leaves the MAC and
  an all-zero IPv4 address written. They are written at
  `src/Ethernet.cpp:49-50`, before detection and before any DHCPv6 exchange
  can fail (`BeginPrologue`). When `W5100.init()` itself fails, `begin`
  returns 0 at `src/Ethernet.cpp:47` before any write
  (`BeginHardwareFailure`).
- `maintain` does not report expiry and does not clear the global address.
  It passes the lease check's code through and writes nothing, because the
  write-back after a rebind at `src/Ethernet.cpp:234-240` is compiled out
  (`MaintainGate`).
- For an autoconfiguration code outside the three handled ones, and in the
  overload at `src/Ethernet.cpp:127-146`, control falls off the end of an
  `int` function. The model returns `Unspecified` there instead of inventing
  a value.
- `use_sateful` becomes 1 on the stateful branch even when the DHCPv6 exchange
  fails. It keeps its old value when initialisation fails or the code is
  unknown, so `maintain` may still check a lease afterwards
  (`BeginSelectsLeaseMaintenance`).

## Model

| member | source | states |
|---|---|---|
| `EthernetStatus.LinkStatusOf` | src/Ethernet.cpp:193-201 | LinkON exactly for LINK_ON, LinkOFF exactly for LINK_OFF, Unknown for UNKNOWN and every other code |
| `EthernetStatus.HardwareStatusOf` | src/Ethernet.cpp:203-212 | W5100, W5200, W5500, W6100 exactly for ids 51, 52, 55, 61; EthernetNoHardware exactly for every other id |
| `EthernetStatus.HardwareStatusDeterminesChip` | src/Ethernet.cpp:203-212 | two chip ids reported as the same chip are the same id |
| `EthernetStatus.Truncate16` | src/Ethernet.cpp:389 | the `uint16_t` argument conversion keeps every value below 2^16 unchanged and otherwise yields a value congruent to the argument modulo 2^16 and no larger than it |
| `EthernetStatus.RetransmissionTicks` | src/Ethernet.cpp:385-391 | for a timeout of at most 6553 ms the register gets exactly ten times the timeout, with no 16-bit wrap; above that it gets 65530; the value never exceeds 65530 |
| `EthernetStatus.RetransmissionTicksMonotone` | src/Ethernet.cpp:385-391 | a longer requested timeout never gives a smaller register value |
| `EthernetStatus.ClampBoundIsTight` | src/Ethernet.cpp:387-389 | for every timeout, ten times it survives the 16-bit conversion exactly when it is at most 6553 ms, so 6553 is the largest bound that avoids wrap-around |
| `EthernetSpec.BeginStep` | src/Ethernet.cpp:32-125 | every `begin` call extends the log, whose first new entry is the hardware initialisation, and leaves the stored DNS server unchanged |
| `EthernetSpec.BeginWithAddressesStep` | src/Ethernet.cpp:127-146 | the overload extends the log starting with the hardware initialisation of the inner `begin(mac)`, and never returns a value |
| `EthernetSpec.BeginStaticStep` | src/Ethernet.cpp:148-186 | the static `begin` extends the log starting with the hardware initialisation, and leaves both pointers and the DHCPv6 mode unchanged |
| `EthernetSpec.MaintainStep` | src/Ethernet.cpp:214-249 | one poll adds at most one log entry, a lease check, and changes nothing else |
| `EthernetSpec.BeginHardwareFailure` | src/Ethernet.cpp:41-47 | failed initialisation returns 0 with only the init call logged: MAC not written, no detection, autoconfiguration or DHCPv6, mode flag unchanged |
| `EthernetSpec.BeginPrologue` | src/Ethernet.cpp:47-62 | after successful initialisation the next five log entries are, in order: init, MAC write, 0.0.0.0 IP write, detection, autoconfiguration on socket 7; afterwards the MAC and IP registers hold those values |
| `EthernetSpec.BeginIgnoresDetection` | src/Ethernet.cpp:55 | the outcome of `begin` is the same whether detection found the address unique or duplicate |
| `EthernetSpec.BeginSlaacRdnss` | src/Ethernet.cpp:65-70 | returns 1, mode stateless, the prologue's entries are the only new log entries, global unicast register unchanged |
| `EthernetSpec.BeginStatelessDhcp` | src/Ethernet.cpp:72-93 | mode stateless, the prologue followed by exactly one DHCPv6 call with the caller's timeouts, returns 1 iff that call returns 1 and 0 otherwise, global unicast register unchanged |
| `EthernetSpec.BeginStatefulDhcpSuccess` | src/Ethernet.cpp:95-116 | when DHCPv6 returns 1: returns 1, mode stateful, the log continues after the prologue with one DHCPv6 call, the `getGua` read, the write of the granted address to the global unicast register, then port randomisation |
| `EthernetSpec.BeginStatefulDhcpFailure` | src/Ethernet.cpp:95-121 | when DHCPv6 returns anything else: returns 0, mode still stateful, the prologue followed by one DHCPv6 call only, global unicast register unchanged |
| `EthernetSpec.BeginOtherCode` | src/Ethernet.cpp:123-125 | any other code: no value returned, mode flag unchanged, the prologue's entries are the only new log entries, global unicast register unchanged |
| `EthernetSpec.BeginReturnValue` | src/Ethernet.cpp:32-125 | over all inputs, 1 is returned iff init succeeds and the code is RDNSS or a DHCPv6 code whose exchange returned 1; no value iff init succeeds with an unknown code; otherwise 0 |
| `EthernetSpec.BeginRegisterFrame` | src/Ethernet.cpp:32-125 | over all inputs, only MAC, IP and global unicast registers are written or change and the DNS field never does; `getGua` is called and the global address is written iff stateful success, and then with the granted value; port randomisation happens iff stateful success |
| `EthernetSpec.BeginSelectsLeaseMaintenance` | src/Ethernet.cpp:41-99 | both pointers are set afterwards, and lease maintenance is selected iff the code was stateful, or the previous mode was stateful when init failed or the code was unknown |
| `EthernetSpec.BeginThenMaintain` | src/Ethernet.cpp:214-219 | after `begin`, a following `maintain` passes a lease code through exactly in the cases `BeginSelectsLeaseMaintenance` names |
| `EthernetSpec.BeginWithAddressesEffects` | src/Ethernet.cpp:127-146 | no value returned; the IP, gateway and subnet writes follow `begin(mac)` in the log and those registers hold the arguments even after failed initialisation; DNS argument not stored; otherwise the state is that of `begin(mac)`, whose DHCPv6 call uses the default timeouts |
| `EthernetSpec.BeginStaticAllOrNothing` | src/Ethernet.cpp:148-186 | on init success the eight register writes are logged in source order and all eight address registers and the DNS field equal the arguments; on failure only the init is logged and none changes; DHCPv6 mode and lease maintenance untouched either way |
| `EthernetSpec.MaintainGate` | src/Ethernet.cpp:214-249 | without a DHCP client in stateful mode, returns DHCP_CHECK_NONE and checks nothing; otherwise checks the lease once and returns its code unchanged; never writes a register, the DNS field or the mode |
| `EthernetSpec.MaintainPollsProperties` | src/Ethernet.cpp:214-249 | repeated polling passes every lease code through in stateful mode and otherwise always answers DHCP_CHECK_NONE; it checks the lease once per poll or never, and leaves registers, DNS, mode and every other call count unchanged |
| `Ethernet.EthernetClass.constructor` | src/Ethernet.cpp:27-30 | the global object starts with both pointers NULL and the mode flag 0 |
| `Ethernet.EthernetClass.Begin` | src/Ethernet.cpp:32-125 | the field updates made in source order give exactly the return value and state of `BeginStep` |
| `Ethernet.EthernetClass.BeginWithAddresses` | src/Ethernet.cpp:127-146 | calling `Begin` with the default timeouts and then writing three registers gives exactly `BeginWithAddressesStep` |
| `Ethernet.EthernetClass.BeginStatic` | src/Ethernet.cpp:148-186 | the early return and the eight register writes plus the DNS write give exactly `BeginStaticStep` |
| `Ethernet.EthernetClass.Maintain` | src/Ethernet.cpp:214-249 | returns and leaves exactly what `MaintainStep` gives |
| `Ethernet.EthernetClass.SetRetransmissionTimeout` | src/Ethernet.cpp:385-391 | the clamped parameter, times ten, is written to the retransmission-time register and that write is logged; nothing else changes |

## Left out

- SPI transactions and the W5100 register driver are left out. They are
  foreign hardware access. Registers are abstract byte strings, so the
  driver's fixed register widths are not modelled.
- The chip reset that `W5100.init()` may perform is left out. Registers that
  `begin` does not write keep their values.
- `linkStatus` and `hardwareStatus` read the link code and the chip id from
  the chip. The model takes those values as parameters.
- `Serial` logging is left out. It is diagnostic and never affects control
  flow.
- `socketPortRand(micros())` is a time source. The model records only that it
  is called, as the `PortRandomise` log entry.
- The internals of duplicate address detection, router solicitation with
  SLAAC, and the DHCPv6 exchange and its T1/T2 lease timers are left out.
  That includes any registers those engines write themselves. Their sources
  are not part of this model, so their results are inputs.
- `s_dhcp` is a function-local static object, so `use_sateful` starts
  zero-initialised unless the `Dhcp6Class` constructor sets it. That
  constructor is not part of this model, and the model starts the flag at 0.
  The flag only matters once `_dhcp` is set.
- The getters and setters at `src/Ethernet.cpp:252-383` and `393-398` are left
  out. Each is a single register read or write.
- `init(sspin)` (`src/Ethernet.cpp:188-191`) is left out. It selects a
  hardware pin.
- In C++, flowing off the end of a non-void function is undefined behaviour.
  This happens at `src/Ethernet.cpp:123-125` and `146`. The model assumes the
  code runs as written and treats only the result as unknown
  (`Unspecified`).
- What `Address_Auto_Configuration` does with a duplicate address found by
  detection is not modelled. Its source is not part of this model, and only
  `begin`'s own indifference to the detection result is stated.
