# Ondatra KNE binding and OTG helpers — a Dafny model

This project models, and proves properties of, the core of the Ondatra
test framework's KNE (Kubernetes Network Emulation) binding and of its
OTG (Open Traffic Generator) helpers:

- **KNE reservation** (`knebind.dfy`, module `KneBind`). The binding maps
  KNE node types to vendors with a fixed table. It resolves every testbed
  DUT and OTG of a solver assignment into reservation records.
  - A DUT's record carries the node's name, vendor and type name, and a
    port map from the assignment's interface names.
  - A DUT's gNMI endpoint (`outsideIp:outside` of the node's first service
    named "gnmi") is recorded in the binding's `dut2GNMIAddr` map.
  - An IXIA traffic-generator node instead gives each port the `+`-joined
    list of its services' cluster-local addresses.
  - `Reserve` resolves all DUTs and then all OTGs, stopping at the first
    error.
- **Pushing a traffic configuration** (`otg_push.dfy`, module `OtgPush`).
  The config's ports are matched by name against the testbed's ports, and
  each matched port's location is written in place. The push stops when the
  testbed has too few ports or some port finds no match.
- **The DUT SSH client** (`dut_ssh.dfy`, module `DutSsh`). This covers the
  command strings for pushing and resetting a configuration, and
  `GetInterface`. `GetInterface` scans `show interface` output line by line
  and word by word. It writes the MAC (reformatted from dotted to colon
  form) and the IPv4 address, and the last matching word wins.
- **Traffic checks of the end-to-end test** (`otg_checks.dfy`, module
  `OtgChecks`): `TxRxRoutesOk`, `AllBgp6SessionUp` and
  `PortAndFlowMetricsOk`.
- **Polling** (`wait_for.dfy`, module `Polling`): `WaitFor`, with its option
  defaults and the decision order of its loop, against an abstract clock.

Shared definitions:

- `wrappers.dfy` holds `Option` and `Result`.
- `go_strings.dfy` holds Go's `strings.Split`, `strings.Join`,
  `strings.Contains`, `strings.TrimPrefix` and decimal formatting. Its lemmas
  cover splitting what was joined and joining what was split.

How the source's behaviour is represented:

- **Map iteration order.** Go leaves the order of a `range` over a map
  unspecified. `KneBind.IterationOrder` may return any enumeration of the
  keys, and the pure functions take the order as a parameter. Each property
  is proved for every order.
- **Errors** are `Result` values. `t.Fatalf` in `PushConfig` becomes one of
  the outcomes `InsufficientResources`, `UnmatchedPorts` and `SetConfig`.
  Slicing a short MAC word, a Go runtime panic, becomes the outcome
  `SlicePanic`.
- **External calls become parameters:**
  - the topology fetch and the solver (`Reserve`);
  - the reservation ID (`uuid.New()`);
  - `Exec`, as a function from command text to output or error (`GetInterface`);
  - the result of reading a configuration file (`PushDutConfigFile`);
  - the traffic generator's `GetMetrics`;
  - the predicate and clock of `WaitFor`.
- **The clock.** `WaitFor`'s predicate calls and clock readings form a
  sequence of `Poll`s. Each holds what the predicate returned and the time
  elapsed when the timeout is checked after it.

**Timeout timing.** `otg_test.go` checks the timeout only after a false
result, with a strict `>`, and sleeps after that check. Suppose the k-th
check (counting from 0) falls within [k·interval, (k+1)·interval) of the
start. Then an always-false predicate with a timeout of two intervals is
called at least three times. `Polling.TwoIntervalTimeoutPolls` proves that
the timeout then comes on the third or the fourth call. Slower calls can
time out sooner. `Polling.SlowCallsTimeOutOnSecondCall` shows a case:
interval 10, timeout 20 and calls of 6 give the checks 6 and 22, so the
second call times out.

## Model

| member | source | states |
|---|---|---|
| KneBind.VendorOf | knebind/knebind.go:46-53 | ARISTA_CEOS maps to Arista, CISCO_CSR/CXR to Cisco, JUNIPER_CEVO/VMX to Juniper and IXIA_TG to Ixia (each an if-and-only-if); every other type, UNKNOWN included, has no vendor |
| KneBind.NodeOf | knebind/knebind.go:129 | a device the assignment does not place is looked up as the nil node |
| KneBind.IterationOrder | knebind/knebind.go:198 | a `range` over a node's services may visit the keys in any order, but visits each key exactly once |
| KneBind.FirstGnmi | knebind/knebind.go:198-202 | the search returns a key it visited whose service is named "gnmi", and finds none exactly when no visited service is named "gnmi" |
| KneBind.GnmiAddr | knebind/knebind.go:197-204 | succeeds exactly when the node has a service named "gnmi", and then returns that service's `ip:port` endpoint; otherwise fails with the no-gNMI error naming the node; holds for every iteration order |
| KneBind.EndpointPortRoundTrip | knebind/knebind.go:200 | the outside port can be read back from the endpoint's last `:`-separated piece |
| KneBind.GnmiAddrOrderIndependent | knebind/knebind.go:197-204 | with a single gNMI service, every iteration order yields that service's endpoint |
| KneBind.JoinServiceAddrs | knebind/knebind.go:171-181 | prepending "+" to each address and trimming the leading "+" yields the addresses joined by "+" |
| KneBind.ServiceAddrHasNoPlus | knebind/knebind.go:177 | a service address begins with the "s" of "service-" and contains no "+" when the node name and namespace contain none |
| KneBind.ServiceListShape | knebind/knebind.go:169-183 | an IXIA port name is empty exactly when the node has no services; otherwise it splits at "+" into one address per service, and every service's address is among them, whatever the iteration order |
| KneBind.ResolvedPrefixSpec | knebind/knebind.go:93-106 | the devices before the returned index all resolve and the one at it does not: the point where Reserve's loop stops |
| KneBind.UnknownVendorFailsReserve | knebind/knebind.go:130-133 | a testbed with a DUT or OTG whose node type is not in the vendor table makes Reserve fail, on that device or an earlier one: a DUT bounds the DUT prefix that resolves, and an OTG bounds the OTG prefix |
| KneBind.UnplacedDeviceFails | knebind/knebind.go:129-133 | a device the assignment does not place fails with an unknown-vendor error for the UNKNOWN type |
| KneBind.Bind.constructor | knebind/knebind.go:71-74 | a new binding keeps its configuration and has no endpoints recorded |
| KneBind.Bind.New | knebind/knebind.go:67-75 | a nil configuration is refused; otherwise a fresh binding with the configuration and an empty endpoint map |
| KneBind.Bind.ResolveDut | knebind/knebind.go:128-152 | succeeds exactly when the node type has a vendor and the node has a gNMI service; the record carries the node's name, vendor and type name and the assignment's interface for every port; the fresh DUT alone is added to `dut2GNMIAddr`, under one of its node's gNMI endpoints; on failure the map is unchanged and the error is the vendor error, or else the gNMI error |
| KneBind.Bind.ResolveOtg | knebind/knebind.go:154-195 | succeeds exactly when the node type has a vendor; an IXIA_TG node gives every port a `+`-joined service list of the node, and any other node gives the assignment's interface names; records no endpoint |
| KneBind.Bind.InterfacePorts | knebind/knebind.go:143-145 | every port of the device, and no other, is named after the interface the assignment gives it |
| KneBind.Bind.ServicePorts | knebind/knebind.go:169-183 | every port of the device, and no other, is named by a "+"-joined service list of the node, for some iteration order of its services |
| KneBind.Bind.ResolveDuts | knebind/knebind.go:93-99 | fails exactly when some DUT does not resolve, with the first such DUT's error; on success has one entry per DUT ID, each resolved from a device with that ID, and records for each one in `dut2GNMIAddr` a gNMI endpoint of the node of a device with that ID; earlier endpoints are kept |
| KneBind.Bind.ResolveOtgs | knebind/knebind.go:100-106 | fails exactly when some OTG does not resolve, with the first such OTG's error; on success has one entry per OTG ID, each resolved from a device with that ID |
| KneBind.Bind.Reserve | knebind/knebind.go:79-108 | a fetch or solver error is returned unchanged with the endpoint map untouched; otherwise fails exactly when some DUT or OTG does not resolve, with the first failing DUT's error, else the first failing OTG's; on success the reservation carries the given ID and one resolved entry per DUT and OTG ID, and every reserved DUT maps in `dut2GNMIAddr` to a gNMI endpoint of the node of a device with its ID; one endpoint is added per DUT resolved, and none is lost |
| OtgPush.MatchCountAll | otg.go:51-61 | the number of matched ports is at most the number of config ports, and equals it exactly when every config port name is a testbed port |
| OtgPush.LocateAllEffect | otg.go:52-61 | matching never renames a port, sets each matched port to its testbed location, leaves unmatched ports unchanged, and is idempotent |
| OtgPush.MatchPort | otg.go:53-60 | ranging over the testbed ports, in any order, sets config port i to its testbed location when its name matches, changes no other port, and counts one match exactly when the name is a testbed port |
| OtgPush.PushConfig | otg.go:41-79 | with fewer testbed ports than config ports, stops with both counts and changes nothing; otherwise writes exactly the matched locations in place, then stops with the match count if some port is unmatched, and else pushes the located configuration; pushes exactly when there are enough testbed ports and every name matches |
| DutSsh.ConfigPushCommand | internal/dut/ssh.go:129-137 | a read failure yields an error and no command; otherwise the command is the configuration preamble followed by the file's contents, unchanged |
| DutSsh.ConfigPushLines | internal/dut/ssh.go:136 | the DUT receives the lines "enable" and "config terminal", then the file's own lines |
| DutSsh.ResetCommandLines | internal/dut/ssh.go:139-141 | the reset command is exactly the three lines "enable", "config terminal" and "reset" |
| DutSsh.ColonMac | internal/dut/ssh.go:155-158 | reformatting a word of at least 14 characters gives a MAC in six colon-separated pairs |
| DutSsh.DottedMacRoundTrip | internal/dut/ssh.go:155-158 | on a dotted `xxxx.xxxx.xxxx` MAC the reformatting loses nothing: the dotted word can be rebuilt from the colon form |
| DutSsh.BeforeSlashPrefix | internal/dut/ssh.go:165 | the IPv4 address kept from a word contains no "/", is a prefix of the word, and is the whole word when it has no "/" |
| DutSsh.ParsedInterfaceShape | internal/dut/ssh.go:150-171 | a parsed interface keeps the requested name, has no IPv6 address, has an empty or colon-form MAC, and has an IPv4 address without "/" |
| DutSsh.ScanMacWords | internal/dut/ssh.go:153-161 | on a hardware line, panics exactly when a dotted word is too short to slice; otherwise the MAC is that of the last dotted word, or is unchanged when there is none |
| DutSsh.ScanIpv4Words | internal/dut/ssh.go:163-167 | on an address line, the IPv4 address becomes that of the last dotted word, or is unchanged when there is none |
| DutSsh.ScanLine | internal/dut/ssh.go:151-168 | a hardware line feeds only the MAC, an address line without the hardware marker feeds only the IPv4 address, and any other line changes nothing |
| DutSsh.UnsliceableLinePanics | internal/dut/ssh.go:155-158 | one MAC word too short to slice, on any hardware line, makes the whole scan panic |
| DutSsh.GetInterface | internal/dut/ssh.go:143-172 | runs `show interface <name>` through `Exec`; an `Exec` error is returned unchanged; otherwise the line-by-line, word-by-word scan computes exactly the last-match-wins parse of the output |
| DutSsh.UnsetFieldsStayEmpty | internal/dut/ssh.go:151-168 | output without a hardware line yields no MAC, and output without an address line yields no IPv4 address |
| DutSsh.LastHardwareLineWins | internal/dut/ssh.go:151-161 | a hardware line appended to the output overrides the MAC and leaves the IPv4 address alone, even if it also has the address marker |
| DutSsh.LastAddressLineWins | internal/dut/ssh.go:162-168 | an address line appended to the output overrides the IPv4 address and leaves the MAC alone |
| OtgChecks.TxRxRoutesOk | otg_test.go:490-512 | true exactly when the slices have equal lengths, no peer advertised zero routes, and every peer received the total advertised minus its own; false on unequal lengths or a zero entry; true on empty slices |
| OtgChecks.BalancedReceivedTotal | otg_test.go:490-512 | when the check passes, the routes received total (peers − 1) times the routes advertised |
| OtgChecks.PeerNamesAppend | otg_test.go:416-424 | peer names are collected in device order: the devices of a concatenation give the first part's names followed by the second's |
| OtgChecks.CollectInterfacePeers | otg_test.go:418-422 | the two inner loops append the interfaces' peer names in order |
| OtgChecks.UpCountAll | otg_test.go:434-439 | the number of up sessions is at most the number of metrics, and equals it exactly when every session is up |
| OtgChecks.HealthyMeansAllUp | otg_test.go:446 | with one metric per configured peer, a passing check means every session is up |
| OtgChecks.HealthyNeedsAMetricPerPeer | otg_test.go:446 | a passing check needs at least as many metrics as configured peers |
| OtgChecks.AllBgp6SessionUp | otg_test.go:415-447 | asks for the metrics of every configured peer, in order; a metrics error gives false and that error; otherwise true exactly when the number of up sessions equals the number of peers and the route counts balance |
| OtgChecks.Total | otg_test.go:372-375 | the loop's running total is the sum of the slice |
| OtgChecks.PortAndFlowMetricsOk | otg_test.go:371-412 | asks for the flow metrics and then the port metrics; either error gives false and that error, the flow error first; otherwise true exactly when the frames received over the flow metrics add up to the packets configured over the flows |
| OtgChecks.DeliveredFlowsPass | otg_test.go:411 | metrics that report exactly each flow's configured packets pass |
| OtgChecks.LostFramesFail | otg_test.go:411 | metrics that report no more than each flow's configured packets, and fewer for some flow, fail |
| Polling.ApplyDefaults | otg_test.go:451-463 | missing options become fresh options with the condition "condition to be true"; a zero interval becomes 500 ms and a zero timeout 30 s, written into the caller's options; nothing else changes |
| Polling.Verdict | otg_test.go:468-481 | after a decisive call: an error reports the error, a true result succeeds, and only a false result times out |
| Polling.FirstDecisive | otg_test.go:467-482 | no call before the returned index is decisive, and the one at it is |
| Polling.PollUntil | otg_test.go:467-482 | the loop stops at the first decisive call, after that many calls, with that call's verdict |
| Polling.WaitFor | otg_test.go:450-483 | applies the defaults to the caller's options, then polls with the defaulted condition and timeout |
| Polling.TimeoutBound | otg_test.go:477-481 | a predicate that stays false, with the clock advancing an interval per call, times out within timeout / interval + 2 calls |
| Polling.TwoIntervalTimeoutPolls | otg_test.go:467-482 | with a timeout of two intervals, and the k-th check falling within [k·interval, (k+1)·interval) of the start, an always-false predicate times out on the third or fourth call |
| Polling.SlowCallsTimeOutOnSecondCall | otg_test.go:467-482 | with interval 10, timeout 20 and checks at 6 and 22, an always-false predicate times out on the second call |
| Polling.SuccessOnThirdPoll | otg_test.go:467-482 | a predicate that holds on the third call succeeds when the timeout is at least three intervals and the first and second checks come within one and two intervals of the start |
| Polling.SuccessAfterTimeout | otg_test.go:472-479 | a true result is a success even after the timeout has passed, because the result is checked before the clock |

## Left out

- Fetching the topology (`fetchTopology`, knebind/knebind.go:110-126) runs an external CLI and parses prototext. `Reserve` takes its result as a parameter.
- The solver `solve` and its `assign` type are not part of this model. `Reserve` takes the solver as a function parameter. Device-to-node injectivity and link adjacency are properties of the solver and are not claimed.
- The reservation ID (`uuid.New()`) is a parameter.
- The unused `mu` mutex of the binding is left out, and so is concurrency. The shown code takes no lock.
- The assignment's maps are keyed by device ID and by (device ID, port ID), not by pointer.
- KneBind.Bind.ResolveDut, KneBind.Bind.ResolveOtg and the methods above them require that every port they look up has an interface in the assignment (`PortsCovered`). The source would read a nil entry's name. The solver is expected to provide every port.
- Error messages of the binding are modelled as structured `BindError` values rather than formatted text.
- `DialGNMI`, `DialOTG`, `DialOTGGNMI`, `passCred`, `Release` and `SetTestMetadata` are left out: they are gRPC/HTTP dialing and credentials.
- The SSH transport is left out: `NewSshClient`, `Exec`, `ExecMultiple` and `Close`. `GetInterface` takes `Exec` as a function parameter, and the command builders return the text they would execute.
- `internal/fakebind/fakebind.go` only delegates to test-supplied functions. `knebind/otgclient.go` only delegates to the gosnappi client.
- `StartProtocols`, `StopProtocols`, `StartTraffic`, `StopTraffic` and `NewGnmiQuery` in otg.go are one-line client calls.
- OtgPush.PushConfig: the `SetConfig` call's own error is external. The model reports the call and its argument as the `SetConfig` outcome. The log output of the mismatch branch is not modelled.
- The config-template engine exercised by dut_test.go is not part of this model.
- `PacketForwardBgpv6Config`, `TestGoSnappiFake`, `TestGoSnappiK8s`, `Timer` and all logging in otg_test.go are left out.
- OtgChecks.AllBgp6SessionUp and OtgChecks.PortAndFlowMetricsOk use unbounded integers. They do not model 64-bit overflow of Go's `int` sums or the width conversions of the metric counters.
- OtgChecks.PortAndFlowMetricsOk does not model the port metrics loop, which only logs.
- Polling.WaitFor stops with `StillPolling` when the given sequence of polls runs out. Go would keep calling the predicate.
- Polling.WaitFor does not model `time.Sleep` itself. The time it takes appears only in the next poll's elapsed time.
- DutSsh.GetInterface treats characters as bytes, so the output is taken to be ASCII. Go slices strings by byte.
