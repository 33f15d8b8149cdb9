/** How far a layering made by the generators is from the layering before it, and what it depends on. */
module Retention {
  import opened Prelude
  import opened Pki
  import opened Topology
  import opened TopologyFacts

  ghost function FormerIds(previous: Layering, i: nat): set<Id> {
    if i < |previous| then Ids(previous[i]) else {}
  }

  /** How many nodes of layer `i` of `t` were in layer `i` before. */
  ghost function Stayed(previous: Layering, t: Layering, i: nat): nat
    requires i < |t|
  {
    |FormerIds(previous, i) * Ids(t[i])|
  }

  /** How many nodes of the first `k` layers of `t` were in the same layer before. */
  ghost function Retained(previous: Layering, t: Layering, k: nat): nat
    requires k <= |t|
  {
    if k == 0 then 0 else Retained(previous, t, k - 1) + Stayed(previous, t, k - 1)
  }

  /** The number of nodes of former layer `i` that could stay there, up to the target. */
  ghost function Reach(nodes: seq<MixDescriptor>, previous: Layering, target: nat, i: nat): nat {
    Min(target, |FormerIds(previous, i) * Ids(nodes)|)
  }

  /** In every layer the generator retains at least as many nodes as survive there, up to the target. */
  lemma LayerRetains(nodes: seq<MixDescriptor>, previous: Layering, layers: nat, target: nat, rng: Rng, i: nat)
    requires Unique(Flat(previous)) && i < layers && |previous| <= layers
    requires NextWithTarget(nodes, previous, layers, target, rng).Some?
    ensures var t := NextWithTarget(nodes, previous, layers, target, rng).value;
            |t| == layers && Stayed(previous, t, i) >= Reach(nodes, previous, target, i)
  {
    var m := NodeMap(nodes);
    var kept, queue := FirstPass(nodes, previous, target, rng);
    PlaceFacts(kept, queue, target, layers);
    var t := NextWithTarget(nodes, previous, layers, target, rng).value;
    if i < |previous| {
      NodeMapKeyed(nodes);
      KeepLayersStay(previous, [], rng, m, target, i);
      KeepLayersCount(previous, [], rng, m, target, i);
      PrefixIds(kept[i], t[i]);
      SubsetCardinality(Ids(kept[i]), FormerIds(previous, i) * Ids(t[i]));
    } else {
      assert FormerIds(previous, i) * Ids(nodes) == {};
    }
  }

  lemma PrefixIds(a: seq<MixDescriptor>, b: seq<MixDescriptor>)
    requires a <= b
    ensures Ids(a) <= Ids(b)
  {
    assert forall d :: d in a ==> d in b;
  }

  /** No layering of the same nodes retains more in a layer than survive there or fit in. */
  lemma LayerBound(nodes: seq<MixDescriptor>, previous: Layering, u: Layering, target: nat, i: nat)
    requires multiset(Flat(u)) == multiset(nodes) && i < |u| && target <= |u[i]|
    ensures Stayed(previous, u, i) <= Reach(nodes, previous, target, i) + |u[i]| - target
  {
    UniqueOfBag(Flat(u), nodes);
    FlatMemberIds(u, i);
    FewerIds(u[i]);
    SubsetCardinality(FormerIds(previous, i) * Ids(u[i]), Ids(u[i]));
    SubsetCardinality(FormerIds(previous, i) * Ids(u[i]), FormerIds(previous, i) * Ids(nodes));
  }

  /** Layer by layer, `u` stays ahead of `t` by no more than its layers exceed the target. */
  lemma {:induction false} RetainedCompare(previous: Layering, t: Layering, u: Layering, target: nat, k: nat)
    requires k <= |t| == |u|
    requires forall i | 0 <= i < k :: Stayed(previous, u, i) <= Stayed(previous, t, i) + |u[i]| - target
    ensures Retained(previous, u, k) <= Retained(previous, t, k) - Shortfall(u[..k], target)
  {
    if k == 0 {
      assert u[..0] == [];
    } else {
      hide Stayed, Shortfall;
      RetainedCompare(previous, t, u, target, k - 1);
      ShortfallSnoc(u[..k - 1], u[k - 1], target);
      assert u[..k] == u[..k - 1] + [u[k - 1]];
    }
  }

  lemma {:induction false} ShortfallSnoc(t: Layering, layer: seq<MixDescriptor>, target: nat)
    ensures Shortfall(t + [layer], target) == Shortfall(t, target) + target - |layer|
  {
    if t == [] {
      assert t + [layer] == [layer];
    } else {
      assert (t + [layer])[1..] == t[1..] + [layer];
      ShortfallSnoc(t[1..], layer, target);
    }
  }

  lemma {:induction false} ShortfallSum(t: Layering, target: nat)
    ensures Shortfall(t, target) == |t| * target - |Flat(t)|
  {
    if t != [] {
      ShortfallSum(t[1..], target);
      assert |t| * target == target + |t[1..]| * target;
    }
  }

  /** Layer sizes differ by at most one. */
  ghost predicate Balanced(t: Layering) {
    forall i, j | 0 <= i < |t| && 0 <= j < |t| :: |t[i]| <= |t[j]| + 1
  }

  lemma {:induction false} ShortfallPositive(t: Layering, target: nat, i: nat)
    requires i < |t| && |t[i]| < target && forall j | 0 <= j < |t| :: |t[j]| <= target
    ensures Shortfall(t, target) > 0
  {
    if i == 0 {
      ShortfallTotal(t[1..], target);
    } else {
      ShortfallPositive(t[1..], target, i - 1);
    }
  }

  /** In a balanced layering no layer is below the quotient. */
  lemma BalancedFloor(t: Layering, i: nat)
    requires Balanced(t) && i < |t|
    ensures |Flat(t)| / |t| <= |t[i]|
  {
    var q := |Flat(t)| / |t|;
    RemainderLeft(|Flat(t)|, |t|);
    ShortfallSum(t, q);
    if |t[i]| < q {
      forall j | 0 <= j < |t| ensures |t[j]| <= q { assert |t[j]| <= |t[i]| + 1; }
      ShortfallPositive(t, q, i);
    }
  }

  /** Retention is near-optimal: no balanced layering of the same nodes keeps more than `n mod layers` nodes more. */
  lemma RetentionNearOptimal(nodes: seq<MixDescriptor>, previous: Layering, layers: nat, rng: Rng, u: Layering)
    requires layers > 0 && |previous| <= layers && Unique(nodes) && Unique(Flat(previous))
    requires |u| == layers && Balanced(u) && multiset(Flat(u)) == multiset(nodes)
    ensures var t := NextTopology(nodes, previous, layers, rng);
            && t.Some? && |t.value| == layers
            && Retained(previous, u, layers) <= Retained(previous, t.value, layers) + |nodes| % layers
  {
    var q := |nodes| / layers;
    NextTopologyExact(nodes, previous, layers, q, rng);
    RemainderLeft(|nodes|, layers);
    MulMonotone(q, |previous|, layers);
    UniqueOfBag(Flat(u), nodes);
    CompareAll(nodes, previous, layers, q, rng, u);
  }

  lemma CompareAll(nodes: seq<MixDescriptor>, previous: Layering, layers: nat, q: nat, rng: Rng, u: Layering)
    requires layers > 0 && |previous| <= layers && Unique(Flat(previous)) && q == |nodes| / layers
    requires NextWithTarget(nodes, previous, layers, q, rng).Some?
    requires |u| == layers && Balanced(u) && multiset(Flat(u)) == multiset(nodes) && |Flat(u)| == |nodes|
    ensures var t := NextWithTarget(nodes, previous, layers, q, rng).value;
            |t| == layers && Retained(previous, u, layers) <= Retained(previous, t, layers) + |nodes| - layers * q
  {
    var t := NextWithTarget(nodes, previous, layers, q, rng).value;
    forall i | 0 <= i < layers
      ensures |t| == layers && Stayed(previous, u, i) <= Stayed(previous, t, i) + |u[i]| - q
    {
      BalancedFloor(u, i);
      LayerRetains(nodes, previous, layers, q, rng, i);
      LayerBound(nodes, previous, u, q, i);
    }
    RetainedCompare(previous, t, u, q, layers);
    assert u[..layers] == u;
    ShortfallSum(u, q);
  }

  // --- an unchanged set of nodes

  lemma {:induction false} RetainedAll(previous: Layering, t: Layering, q: nat, k: nat)
    requires k <= |t| && forall i | 0 <= i < k :: Stayed(previous, t, i) >= q
    ensures Retained(previous, t, k) >= k * q
  {
    if k > 0 {
      RetainedAll(previous, t, q, k - 1);
      assert k * q == (k - 1) * q + q;
    }
  }

  /** If every node of a former layer comes back, that layer can keep as many as the target. */
  lemma ReachAll(nodes: seq<MixDescriptor>, previous: Layering, target: nat, i: nat)
    requires Unique(Flat(previous)) && Ids(nodes) == Ids(Flat(previous)) && i < |previous| && target <= |previous[i]|
    ensures Reach(nodes, previous, target, i) == target
  {
    LayerIds(previous, i);
    assert Ids(previous[i]) * Ids(nodes) == Ids(previous[i]);
  }

  lemma LayerIds(t: Layering, i: nat)
    requires Unique(Flat(t)) && i < |t|
    ensures Ids(t[i]) <= Ids(Flat(t)) && |Ids(t[i])| == |t[i]|
    ensures Ids(Flat(t[..i])) !! Ids(t[i]) && Ids(t[i]) !! Ids(Flat(t[i + 1..]))
  {
    FlatMemberIds(t, i);
    assert t == t[..i] + ([t[i]] + t[i + 1..]);
    FlatAppend(t[..i], [t[i]] + t[i + 1..]);
    FlatCons(t[i], t[i + 1..]);
    UniqueAppend(Flat(t[..i]), t[i] + Flat(t[i + 1..]));
    UniqueAppend(t[i], Flat(t[i + 1..]));
    IdsAppend(t[i], Flat(t[i + 1..]));
  }

  /** When the same nodes come back and the last layering was made by the generators, at most `n mod layers`
      nodes change layer, and none at all when that remainder is 0 or 1. */
  lemma UnchangedNodesStay(nodes: seq<MixDescriptor>, former: seq<MixDescriptor>, previous: Layering, layers: nat,
                           rng: Rng)
    requires EvenPartition(previous, former, layers) && Unique(former) && Unique(nodes) && Ids(nodes) == Ids(former)
    ensures var t := NextTopology(nodes, previous, layers, rng);
            && t.Some? && EvenPartition(t.value, nodes, layers)
            && Retained(previous, t.value, layers) >= |nodes| - |nodes| % layers
            && (|nodes| % layers <= 1 ==> forall i | 0 <= i < layers :: Ids(t.value[i]) == Ids(previous[i]))
  {
    var q := |nodes| / layers;
    NextTopologyEven(nodes, previous, layers, rng);
    UniqueOfBag(Flat(previous), former);
    var t := NextTopology(nodes, previous, layers, rng).value;
    forall i | 0 <= i < layers ensures Stayed(previous, t, i) >= q {
      ReachAll(nodes, previous, q, i);
      LayerRetains(nodes, previous, layers, q, rng, i);
    }
    RetainedAll(previous, t, q, layers);
    RemainderLeft(|nodes|, layers);
    if |nodes| % layers <= 1 {
      SmallRemainderStays(nodes, previous, t, layers);
    }
  }

  lemma SmallRemainderStays(nodes: seq<MixDescriptor>, previous: Layering, t: Layering, layers: nat)
    requires EvenPartition(t, nodes, layers) && |nodes| % layers <= 1 && |previous| == layers
    requires forall i | 0 <= i < layers :: |previous[i]| == |t[i]| && Stayed(previous, t, i) >= |nodes| / layers
    requires Unique(Flat(previous)) && Unique(nodes) && Ids(nodes) == Ids(Flat(previous))
    ensures forall i | 0 <= i < layers :: Ids(t[i]) == Ids(previous[i])
  {
    UniqueOfBag(Flat(t), nodes);
    forall i | 1 <= i < layers ensures Ids(t[i]) == Ids(previous[i]) {
      FullOverlap(previous, t, i, |nodes| / layers);
    }
    OthersAgree(previous, t);
  }

  lemma FullOverlap(a: Layering, b: Layering, i: nat, q: nat)
    requires Unique(Flat(a)) && Unique(Flat(b)) && i < |a| && i < |b| && |a[i]| == q == |b[i]|
    requires |Ids(a[i]) * Ids(b[i])| >= q
    ensures Ids(b[i]) == Ids(a[i])
  {
    LayerIds(a, i);
    LayerIds(b, i);
    SubsetCardinality(Ids(a[i]) * Ids(b[i]), Ids(a[i]));
    SubsetCardinality(Ids(a[i]) * Ids(b[i]), Ids(b[i]));
  }

  lemma OthersAgree(a: Layering, b: Layering)
    requires Unique(Flat(a)) && Unique(Flat(b)) && |a| == |b| > 0 && Ids(Flat(a)) == Ids(Flat(b))
    requires forall i | 1 <= i < |a| :: Ids(b[i]) == Ids(a[i])
    ensures Ids(b[0]) == Ids(a[0])
  {
    SameRest(a[1..], b[1..]);
    IdsAppend(a[0], Flat(a[1..]));
    IdsAppend(b[0], Flat(b[1..]));
    FlatSplit(a);
    FlatSplit(b);
  }

  lemma {:induction false} SameRest(a: Layering, b: Layering)
    requires |a| == |b| && forall i | 0 <= i < |a| :: Ids(b[i]) == Ids(a[i])
    ensures Ids(Flat(a)) == Ids(Flat(b))
  {
    if a != [] {
      SameRest(a[1..], b[1..]);
      IdsAppend(a[0], Flat(a[1..]));
      IdsAppend(b[0], Flat(b[1..]));
    }
  }

  // --- what a layering depends on

  lemma {:induction false} NodeMapMember(nodes: seq<MixDescriptor>, id: Id)
    requires id in NodeMap(nodes)
    ensures NodeMap(nodes)[id] in nodes && NodeMap(nodes)[id].id == id
  {
    var front, last := nodes[..|nodes| - 1], nodes[|nodes| - 1];
    if id != last.id {
      NodeMapMember(front, id);
    }
  }

  /** With a previous layering the order of the descriptor list does not matter. */
  lemma OrderIrrelevant(nodes: seq<MixDescriptor>, shuffled: seq<MixDescriptor>, previous: Layering, layers: nat,
                        rng: Rng)
    requires Unique(nodes) && multiset(nodes) == multiset(shuffled)
    ensures NextTopology(nodes, previous, layers, rng) == NextTopology(shuffled, previous, layers, rng)
  {
    UniqueOfBag(nodes, shuffled);
    NodeMapKeyed(nodes);
    NodeMapKeyed(shuffled);
    var m, w := NodeMap(nodes), NodeMap(shuffled);
    forall id | id in m ensures m[id] == w[id] {
      NodeMapMember(nodes, id);
      NodeMapMember(shuffled, id);
      assert w[id] in multiset(nodes);
      UniqueMember(nodes, m[id], w[id]);
    }
    assert m == w;
  }
}
