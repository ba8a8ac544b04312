/**
 * The KNE binding's reservation assembly: a fixed node-type -> vendor table,
 * the search for a node's gNMI endpoint, the per-device resolution of a
 * solver assignment into reservation records, and Reserve, which assembles
 * those records for a whole testbed.
 *
 * The topology fetch and the solver are outside the model: Reserve takes
 * the fetched topology and the solver as parameters. Go's map iteration
 * order, which the source leaves unspecified, is modelled by IterationOrder,
 * which may enumerate a node's services in any order.
 */
module KneBind {
  import opened Wrappers
  import opened GoStrings

  // ---------------------------------------------------------------------
  // Topology, testbed and assignment

  /** A KNE node type; `Other` stands for every type the vendor table lacks.
      Its `typeName` is the name of such a type: a value such as
      `Other("ARISTA_CEOS")` does not stand for a real type, since that type
      has a constructor of its own, and `VendorOf` gives it no vendor. */
  datatype NodeType =
    | Unknown
    | AristaCeos
    | CiscoCsr
    | CiscoCxr
    | JuniperCevo
    | JuniperVmx
    | IxiaTg
    | Other(typeName: string)

  datatype Vendor = Arista | Cisco | Juniper | Ixia

  /** A management endpoint a node exposes: its inside port and its outside address and port. */
  datatype Service = Service(name: string, inside: nat, outsideIp: string, outside: nat)

  /** A topology node; its services are keyed by service ID, in no particular order. */
  datatype Node = Node(name: string, nodeType: NodeType, services: map<nat, Service>)

  /** What a lookup of a device the assignment does not mention yields: a nil node,
      whose getters return the empty name, the UNKNOWN type and no services. */
  const NilNode := Node("", Unknown, map[])

  datatype Topology = Topology(nodes: seq<Node>)

  /** A logical testbed device: its ID and the IDs of its logical ports. */
  datatype Device = Device(id: string, ports: seq<string>)

  datatype Testbed = Testbed(duts: seq<Device>, otgs: seq<Device>)

  datatype PortKey = PortKey(device: string, port: string)

  /** The solver's assignment: device -> node, port -> interface name, and the
      topology namespace. */
  datatype Assign = Assign(dut2Node: map<string, Node>, port2Intf: map<PortKey, string>, topoNs: string)

  datatype Config = Config(topoPath: string, cliPath: string, kubecfgPath: string, username: string, password: string)

  /** The dimensions of a reserved device; `ports` maps a logical port ID to its port name. */
  datatype Dims = Dims(name: string, vendor: Vendor, hardwareModel: string, softwareVersion: string, ports: map<string, string>)

  /** A reserved DUT. It is a reference: the binding keys its address map by DUT identity. */
  class Dut {
    const dims: Dims

    constructor (dims: Dims)
      ensures this.dims == dims
    {
      this.dims := dims;
    }
  }

  datatype Reservation = Reservation(id: string, duts: map<string, Dut>, otgs: map<string, Dims>)

  datatype BindError =
    | NilConfig
    | UnknownVendor(nodeType: NodeType)
    | NoGnmiService(node: Node)
    | External(message: string)

  datatype Role = DutRole | OtgRole

  // ---------------------------------------------------------------------
  // The vendor table and node naming

  /** The enum name of a node type, which the reservation uses as both
      hardware model and software version. */
  function TypeName(t: NodeType): string
  {
    match t
    case Unknown => "UNKNOWN"
    case AristaCeos => "ARISTA_CEOS"
    case CiscoCsr => "CISCO_CSR"
    case CiscoCxr => "CISCO_CXR"
    case JuniperCevo => "JUNIPER_CEVO"
    case JuniperVmx => "JUNIPER_VMX"
    case IxiaTg => "IXIA_TG"
    case Other(n) => n
  }

  /** The fixed node-type -> vendor table. */
  function VendorOf(t: NodeType): (r: Option<Vendor>)
    ensures r == Some(Arista) <==> t == AristaCeos
    ensures r == Some(Cisco) <==> t == CiscoCsr || t == CiscoCxr
    ensures r == Some(Juniper) <==> t == JuniperCevo || t == JuniperVmx
    ensures r == Some(Ixia) <==> t == IxiaTg
    ensures r == None <==> t == Unknown || t.Other?
  {
    match t
    case AristaCeos => Some(Arista)
    case CiscoCsr => Some(Cisco)
    case CiscoCxr => Some(Cisco)
    case JuniperCevo => Some(Juniper)
    case JuniperVmx => Some(Juniper)
    case IxiaTg => Some(Ixia)
    case _ => None
  }

  /** `a.dut2Node[dev]`: the assigned node, or the nil node when there is none. */
  function NodeOf(a: Assign, dev: Device): (n: Node)
    ensures dev.id !in a.dut2Node ==> n == NilNode
  {
    if dev.id in a.dut2Node then a.dut2Node[dev.id] else NilNode
  }

  // ---------------------------------------------------------------------
  // Map iteration order

  /** `order` lists every key of `m` exactly once: one possible order of a Go `range` over `m`. */
  ghost predicate Enumerates(order: seq<nat>, m: map<nat, Service>)
  {
    && (forall i, j :: 0 <= i < j < |order| ==> order[i] != order[j])
    && (forall k :: k in m <==> k in order)
  }

  /** A `range` over a map visits its keys in an order the language leaves open;
      this method may return any enumeration of the keys. */
  method IterationOrder(m: map<nat, Service>) returns (order: seq<nat>)
    ensures Enumerates(order, m)
  {
    order := [];
    var remaining := m.Keys;
    while remaining != {}
      invariant forall k :: k in m <==> k in order || k in remaining
      invariant forall k :: k in order ==> k !in remaining
      invariant forall i, j :: 0 <= i < j < |order| ==> order[i] != order[j]
      decreases remaining
    {
      var k :| k in remaining;
      order := order + [k];
      remaining := remaining - {k};
    }
  }

  /** An enumeration of a map is exactly as long as the map. */
  lemma {:induction false} EnumerationLength(order: seq<nat>, m: map<nat, Service>)
    requires Enumerates(order, m)
    ensures |order| == |m|
    decreases |order|
  {
    if |order| > 0 {
      var k := order[|order| - 1];
      var rest := order[..|order| - 1];
      var m' := map x | x in m && x != k :: m[x];
      forall x ensures x in m' <==> x in rest {
        if x in m' {
          var i :| 0 <= i < |order| && order[i] == x;
          assert i != |order| - 1;
          assert rest[i] == x;
        }
      }
      EnumerationLength(rest, m');
      assert m'.Keys == m.Keys - {k};
    } else {
      assert m.Keys == {};
    }
  }

  // ---------------------------------------------------------------------
  // The gNMI endpoint

  /** `"%s:%d"` of a service's outside address and port. */
  function Endpoint(s: Service): string
  {
    s.outsideIp + ":" + Decimal(s.outside)
  }

  /** The outside port can be read back from the last ':'-separated piece of an endpoint. */
  lemma EndpointPortRoundTrip(s: Service)
    ensures var pieces := Split(Endpoint(s), ':');
      && pieces[|pieces| - 1] == Decimal(s.outside)
      && DecimalValue(pieces[|pieces| - 1]) == s.outside
  {
    var digits := Decimal(s.outside);
    assert forall i :: 0 <= i < |digits| ==> digits[i] != ':';
    SplitConcat(s.outsideIp, digits, ':');
    SplitOfPlain(digits, ':');
    assert Endpoint(s) == s.outsideIp + [':'] + digits;
    DecimalRoundTrip(s.outside);
  }

  ghost predicate HasGnmiService(node: Node)
  {
    exists k :: k in node.services && node.services[k].name == "gnmi"
  }

  /** `addr` is the endpoint of one of the node's services named "gnmi". */
  ghost predicate IsGnmiEndpoint(addr: string, node: Node)
  {
    exists k :: k in node.services && node.services[k].name == "gnmi" && addr == Endpoint(node.services[k])
  }

  /** The first key in `order` whose service is named "gnmi". */
  function FirstGnmi(services: map<nat, Service>, order: seq<nat>): (r: Option<nat>)
    requires forall k :: k in order ==> k in services
    ensures r.Some? ==> r.value in order && services[r.value].name == "gnmi"
    ensures r.None? <==> forall k :: k in order ==> services[k].name != "gnmi"
    decreases |order|
  {
    if |order| == 0 then None
    else if services[order[0]].name == "gnmi" then Some(order[0])
    else
      var r := FirstGnmi(services, order[1..]);
      assert forall k :: k in order ==> k == order[0] || k in order[1..];
      r
  }

  /** gnmiAddr: the endpoint of the first service named "gnmi" in iteration order. */
  function GnmiAddr(node: Node, order: seq<nat>): (r: Result<string, BindError>)
    requires Enumerates(order, node.services)
    ensures r.Ok? <==> HasGnmiService(node)
    ensures r.Ok? ==> IsGnmiEndpoint(r.value, node)
    ensures r.Err? ==> r.error == NoGnmiService(node)
  {
    match FirstGnmi(node.services, order)
    case Some(k) => Ok(Endpoint(node.services[k]))
    case None => Err(NoGnmiService(node))
  }

  /** With a single service named "gnmi", the iteration order does not matter. */
  lemma GnmiAddrOrderIndependent(node: Node, order1: seq<nat>, order2: seq<nat>, k: nat)
    requires Enumerates(order1, node.services) && Enumerates(order2, node.services)
    requires k in node.services && node.services[k].name == "gnmi"
    requires forall k' :: k' in node.services && node.services[k'].name == "gnmi" ==> k' == k
    ensures GnmiAddr(node, order1) == GnmiAddr(node, order2) == Ok(Endpoint(node.services[k]))
  {
  }

  // ---------------------------------------------------------------------
  // Traffic-generator service lists

  /** The cluster-local address of one service of a traffic-generator node. */
  function ServiceAddr(node: Node, ns: string, s: Service): string
  {
    "service-" + node.name + "." + ns + ".svc.cluster.local:" + Decimal(s.inside)
  }

  /** The service addresses of a node, in the given key order. */
  function ServiceAddrs(node: Node, ns: string, order: seq<nat>): (r: seq<string>)
    requires forall i :: 0 <= i < |order| ==> order[i] in node.services
  {
    seq(|order|, i requires 0 <= i < |order| => ServiceAddr(node, ns, node.services[order[i]]))
  }

  ghost predicate IsServiceAddr(x: string, node: Node, ns: string)
  {
    exists k :: k in node.services && x == ServiceAddr(node, ns, node.services[k])
  }

  /** `names` is the '+'-joined service list of the node for some iteration order. */
  ghost predicate IsServiceList(names: string, node: Node, ns: string)
  {
    exists order :: Enumerates(order, node.services) && names == Join(ServiceAddrs(node, ns, order), '+')
  }

  lemma ServiceAddrsSnoc(node: Node, ns: string, order: seq<nat>, i: nat)
    requires i < |order|
    requires forall j :: 0 <= j < |order| ==> order[j] in node.services
    ensures ServiceAddrs(node, ns, order[..i + 1]) ==
      ServiceAddrs(node, ns, order[..i]) + [ServiceAddr(node, ns, node.services[order[i]])]
  {
    assert order[..i + 1] == order[..i] + [order[i]];
  }

  /** The loop of resolveOTG that builds one port's name: it appends "+" and
      each address in turn, then trims the leading "+". */
  method JoinServiceAddrs(node: Node, ns: string, order: seq<nat>) returns (names: string)
    requires forall i :: 0 <= i < |order| ==> order[i] in node.services
    ensures names == Join(ServiceAddrs(node, ns, order), '+')
  {
    names := "";
    ghost var done: seq<string> := [];
    for i := 0 to |order|
      invariant done == ServiceAddrs(node, ns, order[..i])
      invariant names == if done == [] then "" else "+" + Join(done, '+')
    {
      var cur := ServiceAddr(node, ns, node.services[order[i]]);
      ServiceAddrsSnoc(node, ns, order, i);
      PlusJoinSnoc(names, done, cur);
      names := names + "+" + cur;
      done := done + [cur];
    }
    names := TrimPrefix(names, '+');
    assert order[..|order|] == order;
  }

  /** One step of the loop above: appending "+" and an address to the "+"-led join. */
  lemma PlusJoinSnoc(names: string, done: seq<string>, cur: string)
    requires names == if done == [] then "" else "+" + Join(done, '+')
    ensures names + "+" + cur == "+" + Join(done + [cur], '+')
  {
    JoinSnoc(done, cur, '+');
  }

  /** No service address contains '+' when the node name and namespace do not. */
  lemma ServiceAddrHasNoPlus(node: Node, ns: string, s: Service)
    requires '+' !in node.name && '+' !in ns
    ensures '+' !in ServiceAddr(node, ns, s)
    ensures ServiceAddr(node, ns, s)[0] == 's'
  {
    var digits := Decimal(s.inside);
    assert forall i :: 0 <= i < |digits| ==> digits[i] != '+';
  }

  /** The shape of a traffic-generator port name: empty exactly when the node
      has no services, never starting with '+', and otherwise splitting at '+'
      into one address per service, every service's address among them. */
  lemma {:induction false} ServiceListShape(node: Node, ns: string, order: seq<nat>)
    requires Enumerates(order, node.services)
    requires '+' !in node.name && '+' !in ns
    ensures var addrs := ServiceAddrs(node, ns, order);
      var names := Join(addrs, '+');
      && (names == "" <==> node.services == map[])
      && (names != "" ==> names[0] == 's')
      && (node.services != map[] ==>
            && Split(names, '+') == addrs
            && |Split(names, '+')| == |node.services|
            && forall x :: x in Split(names, '+') <==> IsServiceAddr(x, node, ns))
  {
    var addrs := ServiceAddrs(node, ns, order);
    EnumerationLength(order, node.services);
    ServiceAddrsPlain(node, ns, order);
    if node.services != map[] {
      SplitOfJoin(addrs, '+');
      ServiceAddrsCover(node, ns, order);
      JoinHead(addrs, '+');
    }
  }

  /** Every address of the list is free of '+' and starts with 's'. */
  lemma ServiceAddrsPlain(node: Node, ns: string, order: seq<nat>)
    requires forall i :: 0 <= i < |order| ==> order[i] in node.services
    requires '+' !in node.name && '+' !in ns
    ensures forall i :: 0 <= i < |order| ==>
      '+' !in ServiceAddrs(node, ns, order)[i] && ServiceAddrs(node, ns, order)[i][0] == 's'
  {
    forall i | 0 <= i < |order|
      ensures '+' !in ServiceAddrs(node, ns, order)[i] && ServiceAddrs(node, ns, order)[i][0] == 's'
    {
      ServiceAddrHasNoPlus(node, ns, node.services[order[i]]);
    }
  }

  /** Over an enumeration, the list holds exactly the addresses of the node's services. */
  lemma ServiceAddrsCover(node: Node, ns: string, order: seq<nat>)
    requires Enumerates(order, node.services)
    ensures forall x :: x in ServiceAddrs(node, ns, order) <==> IsServiceAddr(x, node, ns)
  {
    var addrs := ServiceAddrs(node, ns, order);
    forall x
      ensures x in addrs <==> IsServiceAddr(x, node, ns)
    {
      if IsServiceAddr(x, node, ns) {
        var k :| k in node.services && x == ServiceAddr(node, ns, node.services[k]);
        var i :| 0 <= i < |order| && order[i] == k;
        assert addrs[i] == x;
      }
    }
  }

  // ---------------------------------------------------------------------
  // Per-device resolution

  /** Every logical port the resolution looks up has an interface in the assignment. */
  ghost predicate PortsCovered(role: Role, a: Assign, dev: Device)
  {
    var t := NodeOf(a, dev).nodeType;
    VendorOf(t).Some? && !(role == OtgRole && t == IxiaTg) ==>
      forall p :: p in dev.ports ==> PortKey(dev.id, p) in a.port2Intf
  }

  ghost predicate TestbedCovered(tb: Testbed, a: Assign)
  {
    && (forall i :: 0 <= i < |tb.duts| ==> PortsCovered(DutRole, a, tb.duts[i]))
    && (forall i :: 0 <= i < |tb.otgs| ==> PortsCovered(OtgRole, a, tb.otgs[i]))
  }

  /** A device resolves when its node type has a vendor and, for a DUT, its node has a gNMI service. */
  ghost predicate Resolves(role: Role, dev: Device, a: Assign)
  {
    var node := NodeOf(a, dev);
    VendorOf(node.nodeType).Some? && (role == DutRole ==> HasGnmiService(node))
  }

  /** The error a device that does not resolve fails with. */
  ghost function ResolveError(role: Role, dev: Device, a: Assign): BindError
  {
    var node := NodeOf(a, dev);
    if VendorOf(node.nodeType).None? then UnknownVendor(node.nodeType) else NoGnmiService(node)
  }

  function IdSet(ids: seq<string>): set<string>
  {
    set x | x in ids
  }

  /** `dims` is what resolving `dev` under `a` produces in the given role. */
  ghost predicate ResolvedAs(role: Role, dims: Dims, dev: Device, a: Assign)
  {
    var node := NodeOf(a, dev);
    && VendorOf(node.nodeType).Some?
    && dims.name == node.name
    && dims.vendor == VendorOf(node.nodeType).value
    && dims.hardwareModel == TypeName(node.nodeType)
    && dims.softwareVersion == TypeName(node.nodeType)
    && dims.ports.Keys == IdSet(dev.ports)
    && forall p :: p in dims.ports ==>
         if role == OtgRole && node.nodeType == IxiaTg then IsServiceList(dims.ports[p], node, a.topoNs)
         else PortKey(dev.id, p) in a.port2Intf && dims.ports[p] == a.port2Intf[PortKey(dev.id, p)]
  }

  /** The length of the longest prefix of `devs` whose devices all resolve. */
  ghost function ResolvedPrefix(role: Role, devs: seq<Device>, a: Assign): (n: nat)
    ensures n <= |devs|
    decreases |devs|
  {
    if |devs| == 0 || !Resolves(role, devs[0], a) then 0
    else ResolvedPrefix(role, devs[1..], a) + 1
  }

  /** The devices before the prefix length all resolve, and the one at it does not. */
  lemma {:induction false} ResolvedPrefixSpec(role: Role, devs: seq<Device>, a: Assign)
    ensures forall j :: 0 <= j < ResolvedPrefix(role, devs, a) ==> Resolves(role, devs[j], a)
    ensures ResolvedPrefix(role, devs, a) < |devs| ==> !Resolves(role, devs[ResolvedPrefix(role, devs, a)], a)
    decreases |devs|
  {
    if |devs| > 0 && Resolves(role, devs[0], a) {
      ResolvedPrefixSpec(role, devs[1..], a);
      assert forall j :: 1 <= j < |devs| ==> devs[j] == devs[1..][j - 1];
    }
  }

  /** A loop that finds every device before `i` resolving and the one at `i` failing stops at `i`. */
  lemma ResolvedPrefixStops(role: Role, devs: seq<Device>, a: Assign, i: nat)
    requires i < |devs| && !Resolves(role, devs[i], a)
    requires forall j :: 0 <= j < i ==> Resolves(role, devs[j], a)
    ensures ResolvedPrefix(role, devs, a) == i
  {
    ResolvedPrefixSpec(role, devs, a);
  }

  /** When every device resolves, the prefix is the whole sequence. */
  lemma ResolvedPrefixAll(role: Role, devs: seq<Device>, a: Assign)
    requires forall j :: 0 <= j < |devs| ==> Resolves(role, devs[j], a)
    ensures ResolvedPrefix(role, devs, a) == |devs|
  {
    ResolvedPrefixSpec(role, devs, a);
  }

  lemma ResolvesExtend(role: Role, devs: seq<Device>, a: Assign, i: nat)
    requires i < |devs| && Resolves(role, devs[i], a)
    requires forall j :: 0 <= j < i ==> Resolves(role, devs[j], a)
    ensures forall j :: 0 <= j < i + 1 ==> Resolves(role, devs[j], a)
  {
  }

  /** The error Reserve fails with once the assignment is known: that of the
      first DUT that does not resolve, else that of the first OTG. */
  ghost function FirstFailure(tb: Testbed, a: Assign): Option<BindError>
  {
    var n := ResolvedPrefix(DutRole, tb.duts, a);
    var m := ResolvedPrefix(OtgRole, tb.otgs, a);
    if n < |tb.duts| then Some(ResolveError(DutRole, tb.duts[n], a))
    else if m < |tb.otgs| then Some(ResolveError(OtgRole, tb.otgs[m], a))
    else None
  }

  /** Reserve fails on every testbed with a device whose node type is not in
      the vendor table, and then with an error about a device no later than it. */
  lemma UnknownVendorFailsReserve(tb: Testbed, a: Assign, i: nat)
    requires i < |tb.duts| + |tb.otgs|
    requires VendorOf(NodeOf(a, if i < |tb.duts| then tb.duts[i] else tb.otgs[i - |tb.duts|]).nodeType).None?
    ensures FirstFailure(tb, a).Some?
    ensures i < |tb.duts| ==> ResolvedPrefix(DutRole, tb.duts, a) <= i
    ensures i >= |tb.duts| ==> ResolvedPrefix(OtgRole, tb.otgs, a) <= i - |tb.duts|
  {
    ResolvedPrefixSpec(DutRole, tb.duts, a);
    ResolvedPrefixSpec(OtgRole, tb.otgs, a);
    if i >= |tb.duts| {
      assert !Resolves(OtgRole, tb.otgs[i - |tb.duts|], a);
    }
  }

  /** A device the assignment does not place fails, as a nil node has the UNKNOWN type. */
  lemma UnplacedDeviceFails(role: Role, dev: Device, a: Assign)
    requires dev.id !in a.dut2Node
    ensures !Resolves(role, dev, a) && ResolveError(role, dev, a) == UnknownVendor(Unknown)
  {
  }

  /** The reservation a successful Reserve returns: one entry per DUT ID and per
      OTG ID, each resolved from a device with that ID. */
  ghost predicate ReservationFor(res: Reservation, tb: Testbed, a: Assign, id: string)
  {
    && res.id == id
    && DutEntries(res.duts, tb.duts, a)
    && OtgEntries(res.otgs, tb.otgs, a)
  }

  /** One DUT entry per device ID, each resolved from a device with that ID. */
  ghost predicate DutEntries(duts: map<string, Dut>, devs: seq<Device>, a: Assign)
  {
    && duts.Keys == IdSetOf(devs)
    && forall d :: d in duts ==>
         exists j :: 0 <= j < |devs| && devs[j].id == d && ResolvedAs(DutRole, duts[d].dims, devs[j], a)
  }

  /** One OTG entry per device ID, each resolved from a device with that ID. */
  ghost predicate OtgEntries(otgs: map<string, Dims>, devs: seq<Device>, a: Assign)
  {
    && otgs.Keys == IdSetOf(devs)
    && forall d :: d in otgs ==>
         exists j :: 0 <= j < |devs| && devs[j].id == d && ResolvedAs(OtgRole, otgs[d], devs[j], a)
  }

  /** Every reserved DUT has an address in `addrs`, and that address is a gNMI
      endpoint of the node of a device with the DUT's ID. */
  ghost predicate EndpointsRecorded(duts: map<string, Dut>, devs: seq<Device>, a: Assign, addrs: map<Dut, string>)
  {
    forall d :: d in duts ==>
      && duts[d] in addrs
      && exists j :: 0 <= j < |devs| && devs[j].id == d && IsGnmiEndpoint(addrs[duts[d]], NodeOf(a, devs[j]))
  }

  /** Recording a fresh DUT's endpoint keeps every earlier DUT's endpoint. */
  lemma EndpointsRecordedStep(duts: map<string, Dut>, devs: seq<Device>, i: nat, a: Assign,
                              addrs: map<Dut, string>, dut: Dut, ga: string)
    requires i < |devs|
    requires EndpointsRecorded(duts, devs[..i], a, addrs)
    requires dut !in addrs && IsGnmiEndpoint(ga, NodeOf(a, devs[i]))
    ensures EndpointsRecorded(duts[devs[i].id := dut], devs[..i + 1], a, addrs[dut := ga])
  {
    var pre, upTo, m, addrs' := devs[..i], devs[..i + 1], duts[devs[i].id := dut], addrs[dut := ga];
    forall d | d in m
      ensures && m[d] in addrs'
              && exists j :: 0 <= j < |upTo| && upTo[j].id == d && IsGnmiEndpoint(addrs'[m[d]], NodeOf(a, upTo[j]))
    {
      if d == devs[i].id {
        assert upTo[i] == devs[i];
      } else {
        var j :| 0 <= j < |pre| && pre[j].id == d && IsGnmiEndpoint(addrs[duts[d]], NodeOf(a, pre[j]));
        assert addrs'[m[d]] == addrs[duts[d]];
        assert upTo[j] == pre[j];
      }
    }
  }

  function IdSetOf(devs: seq<Device>): set<string>
  {
    set d | d in devs :: d.id
  }

  lemma DutEntriesStep(duts: map<string, Dut>, devs: seq<Device>, i: nat, a: Assign, dut: Dut)
    requires i < |devs|
    requires DutEntries(duts, devs[..i], a)
    requires ResolvedAs(DutRole, dut.dims, devs[i], a)
    ensures DutEntries(duts[devs[i].id := dut], devs[..i + 1], a)
  {
    var pre, upTo, m := devs[..i], devs[..i + 1], duts[devs[i].id := dut];
    IdSetOfStep(devs, i);
    forall d | d in m
      ensures exists j :: 0 <= j < |upTo| && upTo[j].id == d && ResolvedAs(DutRole, m[d].dims, upTo[j], a)
    {
      if d == devs[i].id {
        assert upTo[i] == devs[i];
      } else {
        var j :| 0 <= j < |pre| && pre[j].id == d && ResolvedAs(DutRole, duts[d].dims, pre[j], a);
        assert upTo[j] == pre[j];
      }
    }
  }

  lemma OtgEntriesStep(otgs: map<string, Dims>, devs: seq<Device>, i: nat, a: Assign, dims: Dims)
    requires i < |devs|
    requires OtgEntries(otgs, devs[..i], a)
    requires ResolvedAs(OtgRole, dims, devs[i], a)
    ensures OtgEntries(otgs[devs[i].id := dims], devs[..i + 1], a)
  {
    var pre, upTo, m := devs[..i], devs[..i + 1], otgs[devs[i].id := dims];
    IdSetOfStep(devs, i);
    forall d | d in m
      ensures exists j :: 0 <= j < |upTo| && upTo[j].id == d && ResolvedAs(OtgRole, m[d], upTo[j], a)
    {
      if d == devs[i].id {
        assert upTo[i] == devs[i];
      } else {
        var j :| 0 <= j < |pre| && pre[j].id == d && ResolvedAs(OtgRole, otgs[d], pre[j], a);
        assert upTo[j] == pre[j];
      }
    }
  }

  /** One more device adds its ID to the ID set. */
  lemma IdSetOfStep(devs: seq<Device>, i: nat)
    requires i < |devs|
    ensures IdSetOf(devs[..i + 1]) == IdSetOf(devs[..i]) + {devs[i].id}
  {
    assert devs[..i + 1] == devs[..i] + [devs[i]];
  }

  // ---------------------------------------------------------------------
  // The binding

  class Bind {
    var cfg: Config
    /** The gNMI endpoint of every DUT resolved so far, keyed by DUT identity. */
    var dut2GNMIAddr: map<Dut, string>

    constructor (cfg: Config)
      ensures this.cfg == cfg && dut2GNMIAddr == map[]
    {
      this.cfg := cfg;
      dut2GNMIAddr := map[];
    }

    /** New: a nil configuration is refused; otherwise a binding with no endpoints recorded. */
    static method New(cfg: Option<Config>) returns (r: Result<Bind, BindError>)
      ensures cfg.None? ==> r == Err(NilConfig)
      ensures cfg.Some? ==> r.Ok? && fresh(r.value) && r.value.cfg == cfg.value && r.value.dut2GNMIAddr == map[]
    {
      if cfg.None? {
        return Err(NilConfig);
      }
      var b := new Bind(cfg.value);
      return Ok(b);
    }

    /** resolveDUT: the reservation record of a DUT, with its gNMI endpoint recorded. */
    method ResolveDut(dev: Device, a: Assign) returns (r: Result<Dut, BindError>)
      requires PortsCovered(DutRole, a, dev)
      modifies this`dut2GNMIAddr
      ensures r.Ok? <==> Resolves(DutRole, dev, a)
      ensures r.Err? ==> r.error == ResolveError(DutRole, dev, a) && dut2GNMIAddr == old(dut2GNMIAddr)
      ensures r.Ok? ==>
        && fresh(r.value)
        && ResolvedAs(DutRole, r.value.dims, dev, a)
        && r.value !in old(dut2GNMIAddr)
        && r.value in dut2GNMIAddr
        && dut2GNMIAddr == old(dut2GNMIAddr)[r.value := dut2GNMIAddr[r.value]]
        && IsGnmiEndpoint(dut2GNMIAddr[r.value], NodeOf(a, dev))
    {
      var node := NodeOf(a, dev);
      var vendor := VendorOf(node.nodeType);
      if vendor.None? {
        return Err(UnknownVendor(node.nodeType));
      }
      var typeName := TypeName(node.nodeType);
      var ports := InterfacePorts(dev, a);
      var dut := new Dut(Dims(node.name, vendor.value, typeName, typeName, ports));
      var order := IterationOrder(node.services);
      var ga := GnmiAddr(node, order);
      if ga.Err? {
        return Err(ga.error);
      }
      dut2GNMIAddr := dut2GNMIAddr[dut := ga.value];
      return Ok(dut);
    }

    /** resolveOTG: the reservation record of a traffic generator. An IXIA_TG
        node gives every port its '+'-joined service list; any other node takes
        the port names from the assignment. No endpoint is recorded. */
    method ResolveOtg(dev: Device, a: Assign) returns (r: Result<Dims, BindError>)
      requires PortsCovered(OtgRole, a, dev)
      ensures r.Ok? <==> Resolves(OtgRole, dev, a)
      ensures r.Err? ==> r.error == ResolveError(OtgRole, dev, a)
      ensures r.Ok? ==> ResolvedAs(OtgRole, r.value, dev, a)
    {
      var node := NodeOf(a, dev);
      var vendor := VendorOf(node.nodeType);
      if vendor.None? {
        return Err(UnknownVendor(node.nodeType));
      }
      var typeName := TypeName(node.nodeType);
      var ports;
      if node.nodeType == IxiaTg {
        ports := ServicePorts(dev, node, a.topoNs);
      } else {
        ports := InterfacePorts(dev, a);
      }
      return Ok(Dims(node.name, vendor.value, typeName, typeName, ports));
    }

    /** The port loop shared by resolveDUT and resolveOTG: each port of the
        device is named after its assigned interface. */
    static method InterfacePorts(dev: Device, a: Assign) returns (ports: map<string, string>)
      requires forall p :: p in dev.ports ==> PortKey(dev.id, p) in a.port2Intf
      ensures ports.Keys == IdSet(dev.ports)
      ensures forall p :: p in ports ==> ports[p] == a.port2Intf[PortKey(dev.id, p)]
    {
      ports := map[];
      for i := 0 to |dev.ports|
        invariant ports.Keys == IdSet(dev.ports[..i])
        invariant forall p :: p in ports ==> ports[p] == a.port2Intf[PortKey(dev.id, p)]
      {
        var p := dev.ports[i];
        assert dev.ports[..i + 1] == dev.ports[..i] + [p];
        ports := ports[p := a.port2Intf[PortKey(dev.id, p)]];
      }
      assert dev.ports[..|dev.ports|] == dev.ports;
    }

    /** The port loop of resolveOTG for an IXIA_TG node: every port of the
        device is named by the node's '+'-joined service list, built afresh,
        in the map's iteration order, for each port. */
    static method ServicePorts(dev: Device, node: Node, ns: string) returns (ports: map<string, string>)
      ensures ports.Keys == IdSet(dev.ports)
      ensures forall p :: p in ports ==> IsServiceList(ports[p], node, ns)
    {
      ports := map[];
      for i := 0 to |dev.ports|
        invariant ports.Keys == IdSet(dev.ports[..i])
        invariant forall p :: p in ports ==> IsServiceList(ports[p], node, ns)
      {
        var p := dev.ports[i];
        assert dev.ports[..i + 1] == dev.ports[..i] + [p];
        var order := IterationOrder(node.services);
        var names := JoinServiceAddrs(node, ns, order);
        assert IsServiceList(names, node, ns);
        ports := ports[p := names];
      }
      assert dev.ports[..|dev.ports|] == dev.ports;
    }

    /** The DUT loop of Reserve: resolve each DUT in turn, stopping at the first error. */
    method ResolveDuts(devs: seq<Device>, a: Assign) returns (r: Result<map<string, Dut>, BindError>)
      requires forall i :: 0 <= i < |devs| ==> PortsCovered(DutRole, a, devs[i])
      modifies this`dut2GNMIAddr
      ensures var n := ResolvedPrefix(DutRole, devs, a);
        && (r.Err? <==> n < |devs|)
        && (r.Err? ==> r.error == ResolveError(DutRole, devs[n], a))
        && (r.Ok? ==> DutEntries(r.value, devs, a) && EndpointsRecorded(r.value, devs, a, dut2GNMIAddr))
        && |dut2GNMIAddr| == |old(dut2GNMIAddr)| + n
      ensures forall d :: d in old(dut2GNMIAddr) ==> d in dut2GNMIAddr && dut2GNMIAddr[d] == old(dut2GNMIAddr)[d]
    {
      var duts: map<string, Dut> := map[];
      var i := 0;
      while i < |devs|
        invariant 0 <= i <= |devs|
        invariant forall j :: 0 <= j < i ==> Resolves(DutRole, devs[j], a)
        invariant DutEntries(duts, devs[..i], a)
        invariant EndpointsRecorded(duts, devs[..i], a, dut2GNMIAddr)
        invariant |dut2GNMIAddr| == |old(dut2GNMIAddr)| + i
        invariant forall d :: d in old(dut2GNMIAddr) ==> d in dut2GNMIAddr && dut2GNMIAddr[d] == old(dut2GNMIAddr)[d]
      {
        var dev := devs[i];
        label Step:
        var res := ResolveDut(dev, a);
        if res.Err? {
          ResolvedPrefixStops(DutRole, devs, a, i);
          return Err(res.error);
        }
        DutEntriesStep(duts, devs, i, a, res.value);
        EndpointsRecordedStep(duts, devs, i, a, old@Step(dut2GNMIAddr), res.value, dut2GNMIAddr[res.value]);
        ResolvesExtend(DutRole, devs, a, i);
        duts := duts[dev.id := res.value];
        i := i + 1;
      }
      assert devs[..|devs|] == devs;
      ResolvedPrefixAll(DutRole, devs, a);
      return Ok(duts);
    }

    /** The OTG loop of Reserve: resolve each OTG in turn, stopping at the first error. */
    method ResolveOtgs(devs: seq<Device>, a: Assign) returns (r: Result<map<string, Dims>, BindError>)
      requires forall i :: 0 <= i < |devs| ==> PortsCovered(OtgRole, a, devs[i])
      ensures var n := ResolvedPrefix(OtgRole, devs, a);
        && (r.Err? <==> n < |devs|)
        && (r.Err? ==> r.error == ResolveError(OtgRole, devs[n], a))
        && (r.Ok? ==> OtgEntries(r.value, devs, a))
    {
      var otgs: map<string, Dims> := map[];
      var i := 0;
      while i < |devs|
        invariant 0 <= i <= |devs|
        invariant forall j :: 0 <= j < i ==> Resolves(OtgRole, devs[j], a)
        invariant OtgEntries(otgs, devs[..i], a)
      {
        var dev := devs[i];
        var res := ResolveOtg(dev, a);
        if res.Err? {
          ResolvedPrefixStops(OtgRole, devs, a, i);
          return Err(res.error);
        }
        OtgEntriesStep(otgs, devs, i, a, res.value);
        ResolvesExtend(OtgRole, devs, a, i);
        otgs := otgs[dev.id := res.value];
        i := i + 1;
      }
      assert devs[..|devs|] == devs;
      ResolvedPrefixAll(OtgRole, devs, a);
      return Ok(otgs);
    }

    /** Reserve: resolve every DUT, then every OTG, aborting on the first error. */
    method Reserve(tb: Testbed, fetched: Result<Topology, BindError>,
                   solve: (Testbed, Topology) -> Result<Assign, BindError>, id: string)
      returns (r: Result<Reservation, BindError>)
      requires fetched.Ok? && solve(tb, fetched.value).Ok? ==> TestbedCovered(tb, solve(tb, fetched.value).value)
      modifies this`dut2GNMIAddr
      ensures fetched.Err? ==> r == Err(fetched.error) && dut2GNMIAddr == old(dut2GNMIAddr)
      ensures fetched.Ok? && solve(tb, fetched.value).Err? ==>
        r == Err(solve(tb, fetched.value).error) && dut2GNMIAddr == old(dut2GNMIAddr)
      ensures fetched.Ok? && solve(tb, fetched.value).Ok? ==>
        var a := solve(tb, fetched.value).value;
        && (r.Err? <==> FirstFailure(tb, a).Some?)
        && (r.Err? ==> r.error == FirstFailure(tb, a).value)
        && (r.Ok? ==> ReservationFor(r.value, tb, a, id))
        && (r.Ok? ==> EndpointsRecorded(r.value.duts, tb.duts, a, dut2GNMIAddr))
        && |dut2GNMIAddr| == |old(dut2GNMIAddr)| + ResolvedPrefix(DutRole, tb.duts, a)
      ensures forall d :: d in old(dut2GNMIAddr) ==> d in dut2GNMIAddr && dut2GNMIAddr[d] == old(dut2GNMIAddr)[d]
      ensures r.Ok? ==> forall d :: d in r.value.duts ==> r.value.duts[d] in dut2GNMIAddr
    {
      if fetched.Err? {
        return Err(fetched.error);
      }
      var solved := solve(tb, fetched.value);
      if solved.Err? {
        return Err(solved.error);
      }
      var a := solved.value;
      var duts := ResolveDuts(tb.duts, a);
      if duts.Err? {
        return Err(duts.error);
      }
      var otgs := ResolveOtgs(tb.otgs, a);
      if otgs.Err? {
        return Err(otgs.error);
      }
      return Ok(Reservation(id, duts.value, otgs.value));
    }
  }
}
