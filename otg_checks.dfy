/**
 * The traffic checks of the OTG end-to-end test: whether every BGPv6 session
 * is up with the expected route counts, and whether every configured packet
 * of every flow arrived. Both ask the traffic generator for metrics through a
 * single GetMetrics call, modelled here as a function from request to
 * response-or-error.
 */
module OtgChecks {
  import opened Wrappers

  // ---------------------------------------------------------------------
  // Sums

  /** The sum of a slice of integers. */
  function Sum(s: seq<int>): int
    decreases |s|
  {
    if |s| == 0 then 0 else Sum(s[..|s| - 1]) + s[|s| - 1]
  }

  /** Summing one more element adds it. */
  lemma SumSnoc(s: seq<int>, x: int)
    ensures Sum(s + [x]) == Sum(s) + x
  {
    assert (s + [x])[..|s|] == s;
  }

  /** Element-wise at most, and somewhere strictly less, gives a strictly smaller sum. */
  lemma {:induction false} SumStrictlyBelow(a: seq<int>, b: seq<int>, j: nat)
    requires |a| == |b| && j < |a|
    requires forall i :: 0 <= i < |a| ==> a[i] <= b[i]
    requires a[j] < b[j]
    ensures Sum(a) < Sum(b)
    decreases |a|
  {
    var n := |a| - 1;
    if j == n {
      SumAtMost(a[..n], b[..n]);
    } else {
      SumStrictlyBelow(a[..n], b[..n], j);
    }
  }

  /** Element-wise at most gives a sum at most. */
  lemma {:induction false} SumAtMost(a: seq<int>, b: seq<int>)
    requires |a| == |b|
    requires forall i :: 0 <= i < |a| ==> a[i] <= b[i]
    ensures Sum(a) <= Sum(b)
    decreases |a|
  {
    if |a| > 0 {
      SumAtMost(a[..|a| - 1], b[..|b| - 1]);
    }
  }

  /** When every element is a constant minus its partner, the sums are related the same way. */
  lemma {:induction false} SumOfDifferences(rx: seq<int>, tx: seq<int>, c: int)
    requires |rx| == |tx|
    requires forall i :: 0 <= i < |rx| ==> rx[i] == c - tx[i]
    ensures Sum(rx) == |tx| * c - Sum(tx)
    decreases |rx|
  {
    if |rx| > 0 {
      var n := |rx| - 1;
      SumOfDifferences(rx[..n], tx[..n], c);
      assert Sum(rx) == n * c - Sum(tx[..n]) + (c - tx[n]);
      assert |tx| * c == n * c + c;
    }
  }

  // ---------------------------------------------------------------------
  // Route bookkeeping

  /** The route counts are consistent: one advertised and one received count
      per peer, every peer advertised something, and every peer received
      exactly what all the other peers advertised. */
  predicate RoutesBalanced(tx: seq<int>, rx: seq<int>)
  {
    && |tx| == |rx|
    && (forall i :: 0 <= i < |tx| ==> tx[i] != 0)
    && (forall i :: 0 <= i < |rx| ==> rx[i] == Sum(tx) - tx[i])
  }

  /** TxRxRoutesOk: total the advertised routes, then compare each peer's
      received count with the total advertised by the others. */
  method TxRxRoutesOk(tx: seq<int>, rx: seq<int>) returns (ok: bool)
    ensures ok <==> RoutesBalanced(tx, rx)
    ensures |tx| != |rx| ==> !ok
    ensures (exists i :: 0 <= i < |tx| && tx[i] == 0) ==> !ok
    ensures |tx| == 0 && |rx| == 0 ==> ok
  {
    if |tx| != |rx| {
      return false;
    }
    var totalTx := 0;
    for i := 0 to |tx|
      invariant totalTx == Sum(tx[..i])
      invariant forall k :: 0 <= k < i ==> tx[k] != 0
    {
      if tx[i] == 0 {
        return false;
      }
      assert tx[..i + 1][..i] == tx[..i];
      totalTx := totalTx + tx[i];
    }
    assert tx[..|tx|] == tx;
    for i := 0 to |rx|
      invariant forall k :: 0 <= k < i ==> rx[k] == totalTx - tx[k]
    {
      if rx[i] != totalTx - tx[i] {
        return false;
      }
    }
    return true;
  }

  /** With balanced routes every peer's advertisements reach every other peer:
      the routes received add up to (peers - 1) times the routes advertised. */
  lemma BalancedReceivedTotal(tx: seq<int>, rx: seq<int>)
    requires RoutesBalanced(tx, rx)
    ensures Sum(rx) == (|tx| - 1) * Sum(tx)
  {
    SumOfDifferences(rx, tx, Sum(tx));
  }

  // ---------------------------------------------------------------------
  // The traffic-generator configuration and its metrics

  datatype Bgp6Peer = Bgp6Peer(name: string)
  datatype Ipv6Interface = Ipv6Interface(peers: seq<Bgp6Peer>)
  /** A device of the configuration, reduced to its BGP IPv6 interfaces. */
  datatype Device = Device(name: string, ipv6Interfaces: seq<Ipv6Interface>)
  /** A flow of the configuration, reduced to its fixed packet count. */
  datatype Flow = Flow(name: string, fixedPackets: int)
  datatype Port = Port(name: string)
  datatype OtgConfig = OtgConfig(ports: seq<Port>, flows: seq<Flow>, devices: seq<Device>)

  datatype SessionState = Up | Down
  datatype Bgp6Metric = Bgp6Metric(name: string, sessionState: SessionState, routesAdvertised: int, routesReceived: int)
  datatype FlowMetric = FlowMetric(name: string, framesTx: int, framesRx: int)
  datatype PortMetric = PortMetric(name: string, framesTx: int, framesRx: int)

  /** A metrics request names the flows, ports or BGPv6 peers it asks about. */
  datatype MetricsRequest =
    | FlowRequest(flowNames: seq<string>)
    | PortRequest(portNames: seq<string>)
    | Bgp6Request(peerNames: seq<string>)

  datatype MetricsResponse = MetricsResponse(
    flowMetrics: seq<FlowMetric>,
    portMetrics: seq<PortMetric>,
    bgp6Metrics: seq<Bgp6Metric>)

  /** GetMetrics on the traffic generator's API. */
  type GetMetrics = MetricsRequest -> Result<MetricsResponse, string>

  /** The names of a sequence of configuration items, in order. */
  function Names<T>(xs: seq<T>, name: T -> string): (r: seq<string>)
    ensures |r| == |xs| && forall i :: 0 <= i < |xs| ==> r[i] == name(xs[i])
  {
    seq(|xs|, i requires 0 <= i < |xs| => name(xs[i]))
  }

  const PeerName := (p: Bgp6Peer) => p.name
  const FlowName := (f: Flow) => f.name
  const PortName := (p: Port) => p.name

  /** The peer names of a device's interfaces, interface by interface. */
  function InterfacePeerNames(ifcs: seq<Ipv6Interface>): seq<string>
    decreases |ifcs|
  {
    if |ifcs| == 0 then [] else InterfacePeerNames(ifcs[..|ifcs| - 1]) + Names(ifcs[|ifcs| - 1].peers, PeerName)
  }

  /** The names of all configured BGPv6 peers, device by device. */
  function PeerNames(devices: seq<Device>): seq<string>
    decreases |devices|
  {
    if |devices| == 0 then [] else PeerNames(devices[..|devices| - 1]) + InterfacePeerNames(devices[|devices| - 1].ipv6Interfaces)
  }

  /** Peer names follow the device order: the devices of a concatenation give
      the names of the first part followed by those of the second. */
  lemma {:induction false} PeerNamesAppend(a: seq<Device>, b: seq<Device>)
    ensures PeerNames(a + b) == PeerNames(a) + PeerNames(b)
    decreases |b|
  {
    if |b| > 0 {
      var n := |b| - 1;
      PeerNamesAppend(a, b[..n]);
      assert (a + b)[..|a + b| - 1] == a + b[..n];
    } else {
      assert a + b == a;
    }
  }

  /** The number of metrics reporting an established session. */
  function UpCount(ms: seq<Bgp6Metric>): nat
    decreases |ms|
  {
    if |ms| == 0 then 0 else UpCount(ms[..|ms| - 1]) + (if ms[|ms| - 1].sessionState == Up then 1 else 0)
  }

  /** Each metric is up at most once, and all count exactly when every session is up. */
  lemma {:induction false} UpCountAll(ms: seq<Bgp6Metric>)
    ensures UpCount(ms) <= |ms|
    ensures UpCount(ms) == |ms| <==> forall i :: 0 <= i < |ms| ==> ms[i].sessionState == Up
    decreases |ms|
  {
    if |ms| > 0 {
      var init := ms[..|ms| - 1];
      UpCountAll(init);
      assert forall i :: 0 <= i < |init| ==> init[i] == ms[i];
    }
  }

  function Advertised(ms: seq<Bgp6Metric>): (r: seq<int>)
    ensures |r| == |ms| && forall i :: 0 <= i < |ms| ==> r[i] == ms[i].routesAdvertised
  {
    seq(|ms|, i requires 0 <= i < |ms| => ms[i].routesAdvertised)
  }

  function Received(ms: seq<Bgp6Metric>): (r: seq<int>)
    ensures |r| == |ms| && forall i :: 0 <= i < |ms| ==> r[i] == ms[i].routesReceived
  {
    seq(|ms|, i requires 0 <= i < |ms| => ms[i].routesReceived)
  }

  /** The decision of AllBgp6SessionUp on a metrics response: as many sessions
      up as peers configured, and consistent route counts. */
  predicate SessionsHealthy(peers: seq<string>, ms: seq<Bgp6Metric>)
  {
    |peers| == UpCount(ms) && RoutesBalanced(Advertised(ms), Received(ms))
  }

  /** When the generator reports one metric per configured peer, a healthy
      verdict means every session is up. */
  lemma HealthyMeansAllUp(peers: seq<string>, ms: seq<Bgp6Metric>)
    requires |ms| == |peers| && SessionsHealthy(peers, ms)
    ensures forall i :: 0 <= i < |ms| ==> ms[i].sessionState == Up
  {
    UpCountAll(ms);
  }

  /** A healthy verdict needs at least as many metrics as configured peers. */
  lemma HealthyNeedsAMetricPerPeer(peers: seq<string>, ms: seq<Bgp6Metric>)
    requires SessionsHealthy(peers, ms)
    ensures |peers| <= |ms|
  {
    UpCountAll(ms);
  }

  /** The names of the interfaces' peers, collected by the two inner loops. */
  method CollectInterfacePeers(ifcs: seq<Ipv6Interface>, names0: seq<string>) returns (names: seq<string>)
    ensures names == names0 + InterfacePeerNames(ifcs)
  {
    names := names0;
    for j := 0 to |ifcs|
      invariant names == names0 + InterfacePeerNames(ifcs[..j])
    {
      assert ifcs[..j + 1][..j] == ifcs[..j];
      var peers := ifcs[j].peers;
      ghost var before := names;
      for k := 0 to |peers|
        invariant names == before + Names(peers[..k], PeerName)
      {
        assert Names(peers[..k + 1], PeerName) == Names(peers[..k], PeerName) + [peers[k].name];
        names := names + [peers[k].name];
      }
      assert peers[..|peers|] == peers;
    }
    assert ifcs[..|ifcs|] == ifcs;
  }

  /** AllBgp6SessionUp: ask for the metrics of every configured BGPv6 peer,
      count the sessions that are up and check the route counts. */
  method AllBgp6SessionUp(getMetrics: GetMetrics, config: OtgConfig) returns (ok: bool, err: Option<string>)
    ensures var resp := getMetrics(Bgp6Request(PeerNames(config.devices)));
      resp.Err? ==> !ok && err == Some(resp.error)
    ensures var resp := getMetrics(Bgp6Request(PeerNames(config.devices)));
      resp.Ok? ==> err == None && (ok <==> SessionsHealthy(PeerNames(config.devices), resp.value.bgp6Metrics))
  {
    var devices := config.devices;
    var dNames: seq<string> := [];
    for i := 0 to |devices|
      invariant dNames == PeerNames(devices[..i])
    {
      assert devices[..i + 1][..i] == devices[..i];
      dNames := CollectInterfacePeers(devices[i].ipv6Interfaces, dNames);
    }
    assert devices[..|devices|] == devices;
    var resp := getMetrics(Bgp6Request(dNames));
    if resp.Err? {
      return false, Some(resp.error);
    }
    var ms := resp.value.bgp6Metrics;
    var routesTx: seq<int> := [];
    var routesRx: seq<int> := [];
    var actualSessionUp := 0;
    for i := 0 to |ms|
      invariant actualSessionUp == UpCount(ms[..i])
      invariant routesTx == Advertised(ms)[..i]
      invariant routesRx == Received(ms)[..i]
    {
      assert ms[..i + 1][..i] == ms[..i];
      if ms[i].sessionState == Up {
        actualSessionUp := actualSessionUp + 1;
      }
      routesTx := routesTx + [ms[i].routesAdvertised];
      routesRx := routesRx + [ms[i].routesReceived];
    }
    assert ms[..|ms|] == ms;
    assert Advertised(ms)[..|ms|] == Advertised(ms);
    assert Received(ms)[..|ms|] == Received(ms);
    if |dNames| == actualSessionUp {
      ok := TxRxRoutesOk(routesTx, routesRx);
    } else {
      ok := false;
    }
    err := None;
  }

  // ---------------------------------------------------------------------
  // Flow delivery

  function FixedPackets(flows: seq<Flow>): (r: seq<int>)
    ensures |r| == |flows| && forall i :: 0 <= i < |flows| ==> r[i] == flows[i].fixedPackets
  {
    seq(|flows|, i requires 0 <= i < |flows| => flows[i].fixedPackets)
  }

  function FramesRx(ms: seq<FlowMetric>): (r: seq<int>)
    ensures |r| == |ms| && forall i :: 0 <= i < |ms| ==> r[i] == ms[i].framesRx
  {
    seq(|ms|, i requires 0 <= i < |ms| => ms[i].framesRx)
  }

  /** The decision of PortAndFlowMetricsOk: the frames received over all flow
      metrics add up to the packets configured over all flows. */
  predicate AllFramesArrived(flows: seq<Flow>, ms: seq<FlowMetric>)
  {
    Sum(FixedPackets(flows)) == Sum(FramesRx(ms))
  }

  /** Metrics that report, flow by flow, exactly the configured packets pass. */
  lemma DeliveredFlowsPass(flows: seq<Flow>, ms: seq<FlowMetric>)
    requires |ms| == |flows|
    requires forall i :: 0 <= i < |flows| ==> ms[i].framesRx == flows[i].fixedPackets
    ensures AllFramesArrived(flows, ms)
  {
    assert FixedPackets(flows) == FramesRx(ms);
  }

  /** Metrics that report, flow by flow, no more than the configured packets and
      fewer for some flow fail: a lost frame is never masked. */
  lemma LostFramesFail(flows: seq<Flow>, ms: seq<FlowMetric>, j: nat)
    requires |ms| == |flows| && j < |flows|
    requires forall i :: 0 <= i < |flows| ==> ms[i].framesRx <= flows[i].fixedPackets
    requires ms[j].framesRx < flows[j].fixedPackets
    ensures !AllFramesArrived(flows, ms)
  {
    SumStrictlyBelow(FramesRx(ms), FixedPackets(flows), j);
  }

  /** The running total of a slice of integers, as the loop computes it. */
  method Total(s: seq<int>) returns (total: int)
    ensures total == Sum(s)
  {
    total := 0;
    for i := 0 to |s|
      invariant total == Sum(s[..i])
    {
      assert s[..i + 1][..i] == s[..i];
      total := total + s[i];
    }
    assert s[..|s|] == s;
  }

  /** PortAndFlowMetricsOk: ask for the flow metrics and then the port metrics,
      and compare the frames received with the packets configured. */
  method PortAndFlowMetricsOk(getMetrics: GetMetrics, config: OtgConfig) returns (ok: bool, err: Option<string>)
    ensures var fr := getMetrics(FlowRequest(Names(config.flows, FlowName)));
      fr.Err? ==> !ok && err == Some(fr.error)
    ensures var fr := getMetrics(FlowRequest(Names(config.flows, FlowName)));
      var pr := getMetrics(PortRequest(Names(config.ports, PortName)));
      fr.Ok? && pr.Err? ==> !ok && err == Some(pr.error)
    ensures var fr := getMetrics(FlowRequest(Names(config.flows, FlowName)));
      var pr := getMetrics(PortRequest(Names(config.ports, PortName)));
      fr.Ok? && pr.Ok? ==> err == None && (ok <==> AllFramesArrived(config.flows, fr.value.flowMetrics))
  {
    var expected := Total(FixedPackets(config.flows));
    var fNames: seq<string> := [];
    for i := 0 to |config.flows|
      invariant fNames == Names(config.flows, FlowName)[..i]
    {
      fNames := fNames + [config.flows[i].name];
    }
    assert Names(config.flows, FlowName)[..|config.flows|] == Names(config.flows, FlowName);
    var pNames: seq<string> := [];
    for i := 0 to |config.ports|
      invariant pNames == Names(config.ports, PortName)[..i]
    {
      pNames := pNames + [config.ports[i].name];
    }
    assert Names(config.ports, PortName)[..|config.ports|] == Names(config.ports, PortName);
    var fMetrics := getMetrics(FlowRequest(fNames));
    if fMetrics.Err? {
      return false, Some(fMetrics.error);
    }
    var pMetrics := getMetrics(PortRequest(pNames));
    if pMetrics.Err? {
      return false, Some(pMetrics.error);
    }
    var actual := Total(FramesRx(fMetrics.value.flowMetrics));
    return expected == actual, None;
  }
}
