/**
 * Binding the ports of a traffic-generator configuration to testbed
 * locations before the configuration is pushed. Config ports are matched by
 * name against the testbed's port -> location map; each matched port has its
 * location written in place. The push aborts, without calling SetConfig,
 * when the testbed has fewer ports than the configuration or when some
 * config port finds no match.
 */
module OtgPush {
  import opened Wrappers

  /** A port of the configuration: its name and, once bound, its location. */
  datatype ConfigPort = ConfigPort(name: string, location: Option<string>)

  /** How PushConfig ends: one of its two aborts, or the single SetConfig call
      with the configuration's ports as they then stand. */
  datatype PushOutcome =
    | InsufficientResources(configPorts: nat, testbedPorts: nat)
    | UnmatchedPorts(matched: nat, testbedPorts: nat)
    | SetConfig(ports: seq<ConfigPort>)

  /** One port after matching: located at its testbed location when its name is a testbed port. */
  function Locate(p: ConfigPort, topology: map<string, string>): ConfigPort
  {
    if p.name in topology then p.(location := Some(topology[p.name])) else p
  }

  /** The configuration's ports after the matching loop. */
  function LocateAll(ports: seq<ConfigPort>, topology: map<string, string>): (r: seq<ConfigPort>)
    ensures |r| == |ports|
  {
    seq(|ports|, i requires 0 <= i < |ports| => Locate(ports[i], topology))
  }

  /** The number of config ports whose name is a testbed port. */
  function MatchCount(ports: seq<ConfigPort>, topology: map<string, string>): nat
    decreases |ports|
  {
    if |ports| == 0 then 0
    else MatchCount(ports[..|ports| - 1], topology) + (if ports[|ports| - 1].name in topology then 1 else 0)
  }

  /** Each port counts at most once, and every port counts exactly when every name is a testbed port. */
  lemma {:induction false} MatchCountAll(ports: seq<ConfigPort>, topology: map<string, string>)
    ensures MatchCount(ports, topology) <= |ports|
    ensures MatchCount(ports, topology) == |ports| <==> forall j :: 0 <= j < |ports| ==> ports[j].name in topology
    decreases |ports|
  {
    if |ports| > 0 {
      var init := ports[..|ports| - 1];
      MatchCountAll(init, topology);
      assert forall j :: 0 <= j < |init| ==> init[j] == ports[j];
    }
  }

  /** Matching writes exactly the matched locations: names never change, a matched
      port is at its testbed location, an unmatched port keeps its location, and
      matching a second time changes nothing. */
  lemma LocateAllEffect(ports: seq<ConfigPort>, topology: map<string, string>)
    ensures forall j :: 0 <= j < |ports| ==> LocateAll(ports, topology)[j].name == ports[j].name
    ensures forall j :: 0 <= j < |ports| && ports[j].name in topology ==>
      LocateAll(ports, topology)[j].location == Some(topology[ports[j].name])
    ensures forall j :: 0 <= j < |ports| && ports[j].name !in topology ==>
      LocateAll(ports, topology)[j] == ports[j]
    ensures LocateAll(LocateAll(ports, topology), topology) == LocateAll(ports, topology)
  {
  }

  /** The number of matched ports grows by one for each config port whose name is a testbed port. */
  lemma MatchCountStep(ports: seq<ConfigPort>, i: nat, topology: map<string, string>)
    requires i < |ports|
    ensures MatchCount(ports[..i + 1], topology) ==
      MatchCount(ports[..i], topology) + if ports[i].name in topology then 1 else 0
  {
    assert ports[..i + 1][..i] == ports[..i];
  }

  /** Locating one more port in place extends the located prefix by one. */
  lemma LocatedStep(before: seq<ConfigPort>, after: seq<ConfigPort>, original: seq<ConfigPort>,
                    i: nat, topology: map<string, string>)
    requires |before| == |after| == |original| && i < |original|
    requires before[..i] == LocateAll(original[..i], topology) && before[i..] == original[i..]
    requires after[i] == Locate(before[i], topology)
    requires forall j :: 0 <= j < |after| && j != i ==> after[j] == before[j]
    ensures after[..i + 1] == LocateAll(original[..i + 1], topology)
    ensures after[i + 1..] == original[i + 1..]
  {
    assert before[i] == before[i..][0] == original[i];
    assert after[..i + 1] == before[..i] + [after[i]];
    assert original[..i + 1] == original[..i] + [original[i]];
    assert after[i + 1..] == before[i..][1..];
  }

  /** The inner loop of PushConfig over the testbed ports, in whatever order the
      map is ranged over: the one port whose name matches writes its location
      into config port i. Returns how many testbed ports matched (0 or 1). */
  method MatchPort(ports: array<ConfigPort>, i: nat, topology: map<string, string>) returns (hits: nat)
    requires i < ports.Length
    modifies ports
    ensures ports[i] == Locate(old(ports[i]), topology)
    ensures forall j :: 0 <= j < ports.Length && j != i ==> ports[j] == old(ports[j])
    ensures hits == if old(ports[i]).name in topology then 1 else 0
  {
    ghost var port := ports[i];
    hits := 0;
    var remaining := topology.Keys;
    while remaining != {}
      invariant remaining <= topology.Keys
      invariant ports[i] == if port.name in topology.Keys - remaining then Locate(port, topology) else port
      invariant hits == if port.name in topology.Keys - remaining then 1 else 0
      invariant forall j :: 0 <= j < ports.Length && j != i ==> ports[j] == old(ports[j])
      decreases remaining
    {
      var topoName :| topoName in remaining;
      if ports[i].name == topoName {
        ports[i] := ports[i].(location := Some(topology[topoName]));
        hits := hits + 1;
      }
      remaining := remaining - {topoName};
    }
  }

  /** PushConfig: bind every config port to its testbed location, then push. */
  method PushConfig(ports: array<ConfigPort>, topology: map<string, string>) returns (outcome: PushOutcome)
    modifies ports
    ensures |topology| < ports.Length ==>
      outcome == InsufficientResources(ports.Length, |topology|) && ports[..] == old(ports[..])
    ensures ports.Length <= |topology| ==> ports[..] == LocateAll(old(ports[..]), topology)
    ensures ports.Length <= |topology| ==>
      var matched := MatchCount(old(ports[..]), topology);
      outcome == if matched == ports.Length then SetConfig(ports[..]) else UnmatchedPorts(matched, |topology|)
    ensures outcome.SetConfig? <==>
      ports.Length <= |topology| && forall j :: 0 <= j < ports.Length ==> old(ports[j]).name in topology
  {
    if |topology| < ports.Length {
      return InsufficientResources(ports.Length, |topology|);
    }
    ghost var original := ports[..];
    var matched := 0;
    for i := 0 to ports.Length
      invariant ports[..i] == LocateAll(original[..i], topology)
      invariant ports[i..] == original[i..]
      invariant matched == MatchCount(original[..i], topology)
    {
      ghost var before := ports[..];
      var hits := MatchPort(ports, i, topology);
      LocatedStep(before, ports[..], original, i, topology);
      MatchCountStep(original, i, topology);
      matched := matched + hits;
    }
    assert original[..ports.Length] == original;
    MatchCountAll(original, topology);
    if matched != ports.Length {
      return UnmatchedPorts(matched, |topology|);
    }
    return SetConfig(ports[..]);
  }
}
