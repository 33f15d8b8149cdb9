/** Whether there are descriptors enough for a usable document, and what the check before generation is worth. */
module Viability {
  import opened Prelude
  import opened Pki
  import opened Topology
  import opened TopologyFacts
  import opened Directory

  ghost function Having(m: map<Id, MixDescriptor>, p: MixDescriptor -> bool): set<Id> {
    set id | id in m && p(m[id])
  }

  /** At least one gateway, one service node, and as many others as the layers need. A descriptor with both flags is
      subtracted twice. */
  ghost predicate Enough(net: Network, m: map<Id, MixDescriptor>) {
    var gateways, services := |Having(m, IsGateway)|, |Having(m, OffersService)|;
    gateways > 0 && services > 0 && |m| - gateways - services >= net.layers * net.minNodesPerLayer
  }

  predicate OffersService(d: MixDescriptor) {
    d.isService
  }

  ghost predicate Verified(net: Network, t: Layering) {
    |t| >= net.layers && forall i | 0 <= i < |t| :: |t[i]| >= net.minNodesPerLayer
  }

  // --- the two checks

  method HasEnoughDescriptors(net: Network, m: map<Id, MixDescriptor>) returns (enough: bool)
    ensures enough <==> Enough(net, m)
  {
    var nrGateways, nrServiceNodes := CountRoles(m);
    var nrNodes := |m| - nrGateways - nrServiceNodes;
    var minNodes := net.layers * net.minNodesPerLayer;
    return nrGateways > 0 && nrServiceNodes > 0 && nrNodes >= minNodes;
  }

  /** The loop of the check, in whatever order the map is visited. */
  method CountRoles(m: map<Id, MixDescriptor>) returns (nrGateways: nat, nrServiceNodes: nat)
    ensures nrGateways == |Having(m, IsGateway)| && nrServiceNodes == |Having(m, OffersService)|
  {
    nrGateways, nrServiceNodes := 0, 0;
    var todo := m.Keys;
    ghost var seen: map<Id, MixDescriptor> := map[];
    assert Having(seen, IsGateway) == {} && Having(seen, OffersService) == {};
    while todo != {}
      invariant seen.Keys == m.Keys - todo && forall id | id in seen :: seen[id] == m[id]
      invariant nrGateways == |Having(seen, IsGateway)| && nrServiceNodes == |Having(seen, OffersService)|
      decreases todo
    {
      var id :| id in todo;
      RolesMore(seen, id, m[id]);
      if m[id].isGateway {
        nrGateways := nrGateways + 1;
      }
      if m[id].isService {
        nrServiceNodes := nrServiceNodes + 1;
      }
      todo := todo - {id};
      seen := seen[id := m[id]];
    }
    assert seen == m;
  }

  lemma RolesMore(m: map<Id, MixDescriptor>, id: Id, d: MixDescriptor)
    requires id !in m
    ensures |Having(m[id := d], IsGateway)| == |Having(m, IsGateway)| + if d.isGateway then 1 else 0
    ensures |Having(m[id := d], OffersService)| == |Having(m, OffersService)| + if d.isService then 1 else 0
  {
    hide Having;
    HavingMore(m, id, d, IsGateway);
    HavingMore(m, id, d, OffersService);
  }

  lemma HavingMore(m: map<Id, MixDescriptor>, id: Id, d: MixDescriptor, p: MixDescriptor -> bool)
    requires id !in m
    ensures |Having(m[id := d], p)| == |Having(m, p)| + if p(d) then 1 else 0
  {
    assert Having(m[id := d], p) == Having(m, p) + if p(d) then {id} else {};
  }

  method VerifyTopology(net: Network, topology: Layering) returns (ok: bool)
    ensures ok <==> Verified(net, topology)
  {
    if |topology| < net.layers { return false; }
    for strata := 0 to |topology|
      invariant forall i | 0 <= i < strata :: |topology[i]| >= net.minNodesPerLayer
    {
      if |topology[strata]| < net.minNodesPerLayer { return false; }
    }
    return true;
  }

  // --- what they say about each other

  /** A list of all descriptors of a map holds as many of a kind as the map does. */
  lemma KindCount(m: map<Id, MixDescriptor>, ds: seq<MixDescriptor>, p: MixDescriptor -> bool)
    requires Keyed(m) && multiset(ds) == Bag(m)
    ensures Unique(ds) && |Filter(ds, p)| == |Having(m, p)|
  {
    InIdOrderSorted(m);
    InIdOrderBag(m);
    UniqueOfBag(InIdOrder(m), ds);
    FilterUnique(ds, p);
    forall id ensures id in Ids(Filter(ds, p)) <==> id in Having(m, p) {
      KindMember(m, ds, p, id);
    }
    assert Ids(Filter(ds, p)) == Having(m, p);
  }

  lemma KindMember(m: map<Id, MixDescriptor>, ds: seq<MixDescriptor>, p: MixDescriptor -> bool, id: Id)
    requires Keyed(m) && multiset(ds) == Bag(m)
    ensures id in Ids(Filter(ds, p)) <==> id in Having(m, p)
  {
    if id in Ids(Filter(ds, p)) {
      var d :| d in Filter(ds, p) && d.id == id;
      FilterMember(ds, p, d);
      assert d in multiset(ds);
      assert d in m.Values;
    }
    if id in Having(m, p) {
      FilterMember(ds, p, m[id]);
      assert m[id] in m.Values;
      assert m[id] in multiset(ds);
    }
  }

  /** Every descriptor that is neither gateway nor service node is a mix; one that is both is missing from the mixes
      once only. */
  lemma MixCount(m: map<Id, MixDescriptor>)
    ensures var (g, s) := (Having(m, IsGateway), Having(m, OffersService));
            |Having(m, IsMix)| == |m| - |g| - |s| + |g * s|
  {
    var g, s := Having(m, IsGateway), Having(m, OffersService);
    assert m.Keys == Having(m, IsMix) + (g + s);
    UnionSize(Having(m, IsMix), g + s);
    UnionSize(g, s);
  }

  /** The smallest layer of an even layering is the quotient. */
  lemma SmallestLayer(t: Layering, nodes: seq<MixDescriptor>, layers: nat)
    requires EvenPartition(t, nodes, layers)
    ensures |t[layers - 1]| == |nodes| / layers && forall i | 0 <= i < |t| :: |nodes| / layers <= |t[i]|
  {
    assert layers - 1 >= |nodes| % layers;
  }

  lemma QuotientReaches(n: nat, layers: nat, min: nat)
    requires layers > 0
    ensures n / layers >= min <==> n >= layers * min
  {
    RemainderLeft(n, layers);
    if n / layers >= min {
      MulMonotone(layers, min, n / layers);
    } else {
      MulMonotone(layers, n / layers + 1, min);
    }
  }

  lemma TopologyIsEven(net: Network, m: map<Id, MixDescriptor>, ds: seq<MixDescriptor>, previous: Option<Document>,
                       srv: Bytes)
    requires net.layers > 0 && Keyed(m) && multiset(ds) == Bag(m)
    requires previous.Some? ==> |previous.value.topology| == net.layers
    ensures var t := ChooseTopology(net, previous, Mixes(ds), srv);
            t.Some? && EvenPartition(t.value, Mixes(ds), net.layers)
  {
    KindCount(m, ds, IsMix);
    FilterUnique(ds, IsMix);
    match previous
    case Some(d) => NextTopologyEven(Mixes(ds), d.topology, net.layers, net.reader(srv));
    case None => RandomTopologyEven(Mixes(ds), net.layers, net.reader(srv));
  }

  /** The topology generated from a descriptor map passes the check afterwards exactly if the mixes suffice, and the
      number that lambdaG is computed from is the size of the smallest layer. */
  lemma GeneratedTopologyPasses(net: Network, m: map<Id, MixDescriptor>, ds: seq<MixDescriptor>,
                                previous: Option<Document>, srv: Bytes)
    requires net.layers > 0 && Keyed(m) && multiset(ds) == Bag(m)
    requires previous.Some? ==> |previous.value.topology| == net.layers
    ensures var t := ChooseTopology(net, previous, Mixes(ds), srv);
            && t.Some?
            && (Verified(net, t.value) <==> |Having(m, IsMix)| >= net.layers * net.minNodesPerLayer)
            && (exists i :: 0 <= i < |t.value| && |t.value[i]| == NodesPerLayer(net, ds))
            && (forall i | 0 <= i < |t.value| :: NodesPerLayer(net, ds) <= |t.value[i]|)
  {
    TopologyIsEven(net, m, ds, previous, srv);
    KindCount(m, ds, IsMix);
    SmallestLayer(ChooseTopology(net, previous, Mixes(ds), srv).value, Mixes(ds), net.layers);
    QuotientReaches(|Mixes(ds)|, net.layers, net.minNodesPerLayer);
  }

  /** Descriptors found to be enough give a topology that passes, whatever flags they combine, and a gateway. */
  lemma EnoughIsViable(net: Network, m: map<Id, MixDescriptor>, ds: seq<MixDescriptor>, previous: Option<Document>,
                       srv: Bytes)
    requires net.layers > 0 && Keyed(m) && multiset(ds) == Bag(m) && Enough(net, m)
    requires previous.Some? ==> |previous.value.topology| == net.layers
    ensures var t := ChooseTopology(net, previous, Mixes(ds), srv); t.Some? && Verified(net, t.value)
    ensures Gateways(ds) != []
  {
    MixCount(m);
    GeneratedTopologyPasses(net, m, ds, previous, srv);
    KindCount(m, ds, IsGateway);
  }

  /** The check is exact when no descriptor has both flags. */
  lemma EnoughIsExact(net: Network, m: map<Id, MixDescriptor>, ds: seq<MixDescriptor>, previous: Option<Document>,
                      srv: Bytes)
    requires net.layers > 0 && Keyed(m) && multiset(ds) == Bag(m)
    requires previous.Some? ==> |previous.value.topology| == net.layers
    requires Having(m, IsGateway) !! Having(m, OffersService)
    ensures Enough(net, m) <==>
            && Gateways(ds) != [] && Services(ds) != []
            && var t := ChooseTopology(net, previous, Mixes(ds), srv); t.Some? && Verified(net, t.value)
  {
    MixCount(m);
    GeneratedTopologyPasses(net, m, ds, previous, srv);
    KindCount(m, ds, IsGateway);
    KindCount(m, ds, IsServiceNode);
    assert Having(m, IsServiceNode) == Having(m, OffersService);
  }

  /** The check promises a service node, but a descriptor with both flags is listed among the gateways only: enough
      descriptors leave the document without service nodes exactly if every service node is a gateway too. */
  lemma ServiceNodesMayBeMissing(net: Network, m: map<Id, MixDescriptor>, ds: seq<MixDescriptor>)
    requires Keyed(m) && multiset(ds) == Bag(m) && Enough(net, m)
    ensures Services(ds) == [] <==> Having(m, OffersService) <= Having(m, IsGateway)
  {
    KindCount(m, ds, IsServiceNode);
    var missing := Having(m, OffersService) - Having(m, IsGateway);
    assert Having(m, IsServiceNode) == missing;
    NothingLeft(Having(m, OffersService), Having(m, IsGateway));
  }

  lemma NothingLeft(a: set<Id>, b: set<Id>)
    ensures |a - b| == 0 <==> a <= b
  {
    if a - b == {} {
      forall x | x in a ensures x in b {
        assert x !in a - b;
      }
    }
  }

  /** Such a map: one node with both flags, and a network that needs no others. */
  lemma MissingServiceNodes(net: Network, d: MixDescriptor)
    requires net.minNodesPerLayer == 1 && net.layers == 1 && d.isGateway && d.isService
    ensures var m := map[d.id := d, d.id + 1 := MixDescriptor(d.id + 1, "", false, false, []),
            d.id + 2 := MixDescriptor(d.id + 2, "", false, false, [])];
            Enough(net, m) && Having(m, OffersService) <= Having(m, IsGateway)
  {
    var m := map[d.id := d, d.id + 1 := MixDescriptor(d.id + 1, "", false, false, []),
      d.id + 2 := MixDescriptor(d.id + 2, "", false, false, [])];
    assert Having(m, IsGateway) == {d.id} && Having(m, OffersService) == {d.id};
    assert m.Keys == {d.id, d.id + 1, d.id + 2};
  }
}
