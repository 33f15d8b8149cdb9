/** What the layerings computed by the generators are: exact partitions of the nodes with known layer sizes,
    as close as possible to the previous layering, and independent of the order of the descriptor list. */
module TopologyFacts {
  import opened Prelude
  import opened Pki
  import opened Topology

  // --- the first pass

  lemma BagSize(m: map<Id, MixDescriptor>)
    requires Keyed(m)
    ensures |Bag(m)| == |m|
  {
    InIdOrderBag(m);
    assert |multiset(InIdOrder(m))| == |InIdOrder(m)|;
  }

  lemma {:induction false} KeepLayerConserves(former: seq<MixDescriptor>, order: seq<nat>,
                                              pending: map<Id, MixDescriptor>,
                                              kept: seq<MixDescriptor>, target: nat)
    requires forall i | 0 <= i < |order| :: order[i] < |former|
    requires Keyed(pending) && |kept| <= target
    ensures var (k, p) := KeepLayer(former, order, pending, kept, target);
            && |k| <= target && Keyed(p)
            && multiset(k) + Bag(p) == multiset(kept) + Bag(pending)
  {
    if order != [] && |kept| < target {
      var id := former[order[0]].id;
      if id in pending {
        BagRemove(pending, id);
        KeepLayerConserves(former, order[1..], pending - {id}, kept + [pending[id]], target);
      } else {
        KeepLayerConserves(former, order[1..], pending, kept, target);
      }
    }
  }

  /** The kept nodes are the ones no longer pending, and all come from the former layer. */
  lemma {:induction false} KeepLayerIds(former: seq<MixDescriptor>, order: seq<nat>, pending: map<Id, MixDescriptor>,
                                        kept: seq<MixDescriptor>, target: nat)
    requires forall i | 0 <= i < |order| :: order[i] < |former|
    requires Keyed(pending)
    ensures var (k, p) := KeepLayer(former, order, pending, kept, target);
            && p.Keys <= pending.Keys && pending.Keys - p.Keys <= Ids(former)
            && Ids(k) == Ids(kept) + (pending.Keys - p.Keys)
            && |k| - |kept| == |pending.Keys| - |p.Keys| && Keyed(p)
  {
    if order != [] && |kept| < target {
      var id := former[order[0]].id;
      if id in pending {
        assert (pending - {id}).Keys == pending.Keys - {id};
        IdsAppend(kept, [pending[id]]);
        IdsOne(pending[id]);
        KeepLayerIds(former, order[1..], pending - {id}, kept + [pending[id]], target);
        var p := KeepLayer(former, order, pending, kept, target).1;
        OneKept(Ids(former), Ids(kept), pending.Keys, p.Keys, id);
      } else {
        KeepLayerIds(former, order[1..], pending, kept, target);
      }
    }
  }

  lemma OneKept(all: set<Id>, before: set<Id>, pending: set<Id>, left: set<Id>, id: Id)
    requires id in pending && id in all && left <= pending - {id} && (pending - {id}) - left <= all
    ensures left <= pending && pending - left <= all
    ensures before + {id} + ((pending - {id}) - left) == before + (pending - left)
  {
  }

  /** What one layer keeps, beginning with nothing. */
  lemma KeptIds(former: seq<MixDescriptor>, order: seq<nat>, pending: map<Id, MixDescriptor>, target: nat)
    requires forall i | 0 <= i < |order| :: order[i] < |former|
    requires Keyed(pending)
    ensures var (k, p) := KeepLayer(former, order, pending, [], target);
            && p.Keys <= pending.Keys && pending.Keys - p.Keys <= Ids(former)
            && Ids(k) == pending.Keys - p.Keys && Unique(k) && Keyed(p)
  {
    KeepLayerIds(former, order, pending, [], target);
    var (k, p) := KeepLayer(former, order, pending, [], target);
    SubsetCardinality(p.Keys, pending.Keys);
    assert Ids([]) == {};
  }

  ghost function At(former: seq<MixDescriptor>, order: seq<nat>): set<Id>
    requires forall i | 0 <= i < |order| :: order[i] < |former|
  {
    set i | i in order :: former[i].id
  }

  /** How many of the nodes at the given positions are pending when their turn comes. */
  ghost function Survivors(former: seq<MixDescriptor>, order: seq<nat>, pending: map<Id, MixDescriptor>): nat
    requires forall i | 0 <= i < |order| :: order[i] < |former|
  {
    if order == [] then 0
    else
      var id := former[order[0]].id;
      (if id in pending then 1 else 0) + Survivors(former, order[1..], pending - {id})
  }

  /** A layer keeps as many of its surviving nodes as the target admits. */
  lemma {:induction false} KeepLayerCount(former: seq<MixDescriptor>, order: seq<nat>, pending: map<Id, MixDescriptor>,
                                          kept: seq<MixDescriptor>, target: nat)
    requires |kept| <= target && forall i | 0 <= i < |order| :: order[i] < |former|
    ensures |KeepLayer(former, order, pending, kept, target).0|
            == Min(target, |kept| + Survivors(former, order, pending))
  {
    if order != [] && |kept| < target {
      var id := former[order[0]].id;
      if id in pending {
        KeepLayerCount(former, order[1..], pending - {id}, kept + [pending[id]], target);
      } else {
        assert pending - {id} == pending;
        KeepLayerCount(former, order[1..], pending, kept, target);
      }
    }
  }

  lemma {:induction false} SurvivorsAre(former: seq<MixDescriptor>, order: seq<nat>, pending: map<Id, MixDescriptor>)
    requires forall i | 0 <= i < |order| :: order[i] < |former|
    ensures Survivors(former, order, pending) == |At(former, order) * pending.Keys|
  {
    if order == [] {
      assert At(former, order) * pending.Keys == {};
    } else {
      var id, rest := former[order[0]].id, order[1..];
      SurvivorsAre(former, rest, pending - {id});
      AtCons(former, order);
      SplitOff(At(former, order), At(former, rest), pending, id);
    }
  }

  lemma AtCons(former: seq<MixDescriptor>, order: seq<nat>)
    requires order != [] && forall i | 0 <= i < |order| :: order[i] < |former|
    ensures At(former, order) == {former[order[0]].id} + At(former, order[1..])
  {
    assert order == [order[0]] + order[1..];
  }

  lemma SplitOff<T>(all: set<Id>, rest: set<Id>, pending: map<Id, T>, id: Id)
    requires all == {id} + rest
    ensures |all * pending.Keys| == (if id in pending then 1 else 0) + |rest * (pending - {id}).Keys|
  {
    if id in pending {
      assert all * pending.Keys == {id} + rest * (pending - {id}).Keys;
    } else {
      assert all * pending.Keys == rest * (pending - {id}).Keys;
    }
  }

  lemma AtPermutation(former: seq<MixDescriptor>, order: seq<nat>)
    requires IsPermutation(order, |former|) && forall i | 0 <= i < |order| :: order[i] < |former|
    ensures At(former, order) == Ids(former)
  {
    forall d | d in former ensures d.id in At(former, order) {
      var i :| 0 <= i < |former| && former[i] == d;
      assert i in Elements(order);
    }
  }

  /** A permutation of positions rearranges the list. */
  lemma {:induction false} SelectBag(s: seq<MixDescriptor>, p: seq<nat>)
    requires IsPermutation(p, |s|) && forall i | 0 <= i < |p| :: p[i] < |s|
    ensures multiset(Select(s, p)) == multiset(s)
    decreases |s|
  {
    if s == [] {
      assert Below(0) == {};
    } else {
      var n := |s| - 1;
      var k := PositionOf(p, n);
      hide IsPermutation, Select;
      var q := Shorter(p, n, k);
      SelectBag(s[..n], q);
      SelectAround(s, p, k);
      LastBag(s);
    }
  }

  lemma PositionOf(p: seq<nat>, n: nat) returns (k: nat)
    requires IsPermutation(p, n + 1)
    ensures k <= n && |p| == n + 1 && p[k] == n
  {
    assert n in Elements(p);
    k :| 0 <= k < |p| && p[k] == n;
  }

  lemma Shorter(p: seq<nat>, n: nat, k: nat) returns (q: seq<nat>)
    requires IsPermutation(p, n + 1) && k <= n && p[k] == n
    ensures q == p[..k] + p[k + 1..] && IsPermutation(q, n) && forall i | 0 <= i < |q| :: q[i] < n
  {
    q := p[..k] + p[k + 1..];
    Without(p, k);
    assert Below(n + 1) - {n} == Below(n);
    forall i | 0 <= i < |q| ensures q[i] < n { assert q[i] in Elements(q); }
  }

  lemma SelectAround(s: seq<MixDescriptor>, p: seq<nat>, k: nat)
    requires k < |p| && (forall i | 0 <= i < |p| :: p[i] < |s|) && s != []
    requires var q := p[..k] + p[k + 1..]; forall i | 0 <= i < |q| :: q[i] < |s| - 1
    ensures var q := p[..k] + p[k + 1..];
            multiset(Select(s, p)) == multiset(Select(s[..|s| - 1], q)) + multiset{s[p[k]]}
  {
    var q, t := p[..k] + p[k + 1..], Select(s, p);
    assert t == t[..k] + [t[k]] + t[k + 1..];
    assert forall i | 0 <= i < |q| :: q[i] == if i < k then p[i] else p[i + 1];
    assert Select(s[..|s| - 1], q) == t[..k] + t[k + 1..];
  }

  /** Dropping an entry from a list without repetitions drops it from the elements. */
  lemma Without(p: seq<nat>, k: nat)
    requires k < |p| && |Elements(p)| == |p|
    ensures Elements(p[..k] + p[k + 1..]) == Elements(p) - {p[k]}
  {
    var q := p[..k] + p[k + 1..];
    assert p == p[..k] + [p[k]] + p[k + 1..];
    assert Elements(p) == Elements(q) + {p[k]};
    FewerElements(q);
  }

  lemma BagChain<T>(a: multiset<T>, b: multiset<T>, before: multiset<T>, between: multiset<T>, after: multiset<T>)
    requires a + between == before && b + after == between
    ensures a + b + after == before
  {
  }

  lemma {:induction false} KeepLayersConserve(previous: Layering, history: seq<nat>, rng: Rng,
                                              pending: map<Id, MixDescriptor>, target: nat)
    requires Keyed(pending)
    ensures var (ks, p) := KeepLayers(previous, history, rng, pending, target);
            && (forall i | 0 <= i < |ks| :: |ks[i]| <= target)
            && Keyed(p) && multiset(Flat(ks)) + Bag(p) == Bag(pending)
  {
    hide KeepLayer, Bag, Keyed, Draw;
    if previous != [] {
      var n := |previous[0]|;
      var order := Draw(rng, history, n);
      KeepLayerConserves(previous[0], order, pending, [], target);
      var (k, p) := KeepLayer(previous[0], order, pending, [], target);
      KeepLayersConserve(previous[1..], history + [n], rng, p, target);
      var (ks, q) := KeepLayers(previous[1..], history + [n], rng, p, target);
      KeepConsBag(k, ks, Bag(pending), Bag(p), Bag(q));
    }
  }

  lemma KeepConsBag(k: seq<MixDescriptor>, ks: Layering, before: multiset<MixDescriptor>,
                    between: multiset<MixDescriptor>, after: multiset<MixDescriptor>)
    requires multiset(k) + between == before && multiset(Flat(ks)) + after == between
    ensures multiset(Flat([k] + ks)) + after == before
  {
    FlatCons(k, ks);
    BagChain(multiset(k), multiset(Flat(ks)), before, between, after);
  }

  /** What the first pass leaves pending when it has done the first layer, and what it kept there. */
  ghost function FirstKept(previous: Layering, history: seq<nat>, rng: Rng, pending: map<Id, MixDescriptor>,
                           target: nat)
    : (seq<MixDescriptor>, map<Id, MixDescriptor>)
    requires previous != []
  {
    KeepLayer(previous[0], Draw(rng, history, |previous[0]|), pending, [], target)
  }

  lemma KeepLayersAt(previous: Layering, history: seq<nat>, rng: Rng, pending: map<Id, MixDescriptor>, target: nat,
                     i: nat)
    requires i < |previous|
    ensures var first := FirstKept(previous, history, rng, pending, target);
            KeepLayers(previous, history, rng, pending, target).0[i] ==
            if i == 0 then first.0
            else KeepLayers(previous[1..], history + [|previous[0]|], rng, first.1, target).0[i - 1]
  {
    hide KeepLayer, Draw;
    var first := FirstKept(previous, history, rng, pending, target);
    var others := KeepLayers(previous[1..], history + [|previous[0]|], rng, first.1, target);
    assert KeepLayers(previous, history, rng, pending, target) == ([first.0] + others.0, others.1);
  }

  /** The first pass keeps exactly as many survivors of each layer as the target admits. */
  lemma {:induction false} KeepLayersCount(previous: Layering, history: seq<nat>, rng: Rng,
                                           pending: map<Id, MixDescriptor>, target: nat, i: nat)
    requires Keyed(pending) && Unique(Flat(previous)) && i < |previous|
    ensures |KeepLayers(previous, history, rng, pending, target).0[i]| == Min(target, |Ids(previous[i]) * pending.Keys|)
  {
    hide KeepLayers;
    var rest := FirstKept(previous, history, rng, pending, target).1;
    KeepLayersAt(previous, history, rng, pending, target, i);
    FirstKeptFacts(previous, history, rng, pending, target);
    if i > 0 {
      var others := previous[1..];
      assert others[i - 1] == previous[i];
      FlatSplit(previous);
      OtherLayer(previous, i, pending.Keys, rest.Keys);
      KeepLayersCount(others, history + [|previous[0]|], rng, rest, target, i - 1);
    }
  }

  lemma FirstKeptFacts(previous: Layering, history: seq<nat>, rng: Rng, pending: map<Id, MixDescriptor>, target: nat)
    requires previous != [] && Keyed(pending)
    ensures var (kept, rest) := FirstKept(previous, history, rng, pending, target);
            && |kept| == Min(target, |Ids(previous[0]) * pending.Keys|)
            && Keyed(rest) && rest.Keys <= pending.Keys && pending.Keys - rest.Keys <= Ids(previous[0])
  {
    var order := Draw(rng, history, |previous[0]|);
    KeepFirstCount(previous[0], order, pending, target);
    KeptIds(previous[0], order, pending, target);
  }

  /** The first pass moves no node to another layer. */
  lemma {:induction false} KeepLayersStay(previous: Layering, history: seq<nat>, rng: Rng,
                                          pending: map<Id, MixDescriptor>, target: nat, i: nat)
    requires Keyed(pending) && i < |previous|
    ensures var k := KeepLayers(previous, history, rng, pending, target).0[i];
            Unique(k) && Ids(k) <= Ids(previous[i]) * pending.Keys
  {
    var n := |previous[0]|;
    var rest := FirstKept(previous, history, rng, pending, target).1;
    KeepLayersAt(previous, history, rng, pending, target, i);
    KeptIds(previous[0], Draw(rng, history, n), pending, target);
    if i > 0 {
      KeepLayersStay(previous[1..], history + [n], rng, rest, target, i - 1);
    }
  }

  /** Keeping nodes of the first layer does not change the survivors of another. */
  lemma OtherLayer(previous: Layering, i: nat, before: set<Id>, after: set<Id>)
    requires Unique(Flat(previous)) && 0 < i < |previous|
    requires after <= before && before - after <= Ids(previous[0])
    ensures |Ids(previous[i]) * before| == |Ids(previous[i]) * after|
  {
    FlatSplit(previous);
    FlatMemberIds(previous[1..], i - 1);
    assert Ids(previous[i]) * before == Ids(previous[i]) * after;
  }

  lemma KeepFirstCount(former: seq<MixDescriptor>, order: seq<nat>, pending: map<Id, MixDescriptor>, target: nat)
    requires IsPermutation(order, |former|) && forall i | 0 <= i < |order| :: order[i] < |former|
    ensures |KeepLayer(former, order, pending, [], target).0| == Min(target, |Ids(former) * pending.Keys|)
  {
    AtPermutation(former, order);
    KeepLayerCount(former, order, pending, [], target);
    SurvivorsAre(former, order, pending);
  }

  lemma FlatSplit(t: Layering)
    requires t != [] && Unique(Flat(t))
    ensures Unique(t[0]) && Unique(Flat(t[1..])) && Ids(t[0]) !! Ids(Flat(t[1..]))
  {
    UniqueAppend(t[0], Flat(t[1..]));
  }

  lemma FlatMemberIds(t: Layering, i: nat)
    requires i < |t|
    ensures Ids(t[i]) <= Ids(Flat(t))
  {
    forall d | d in t[i] ensures d in Flat(t) { FlatMember(t, d); }
  }

  // --- the second and the last pass

  /** How many nodes the layers lack. */
  ghost function Shortfall(kept: Layering, target: nat): int {
    if kept == [] then 0 else target - |kept[0]| + Shortfall(kept[1..], target)
  }

  lemma {:induction false} ShortfallTotal(kept: Layering, target: nat)
    requires forall i | 0 <= i < |kept| :: |kept[i]| <= target
    ensures 0 <= Shortfall(kept, target) == |kept| * target - |Flat(kept)|
  {
    if kept != [] {
      ShortfallTotal(kept[1..], target);
      assert |kept| * target == target + |kept[1..]| * target;
    }
  }

  lemma {:induction false} FillLayersSizes(kept: Layering, queue: seq<MixDescriptor>, target: nat)
    requires forall i | 0 <= i < |kept| :: |kept[i]| <= target
    ensures var r := FillLayers(kept, queue, target);
            && (r.None? <==> |queue| < Shortfall(kept, target))
            && (r.Some? ==> forall i | 0 <= i < |kept| :: |r.value.0[i]| == target && kept[i] <= r.value.0[i])
    decreases |kept|, if kept == [] then 0 else target - |kept[0]|
  {
    if kept == [] {
    } else if |kept[0]| < target {
      ShortfallTotal(kept[1..], target);
      if queue != [] {
        var more := [kept[0] + [queue[0]]] + kept[1..];
        assert more[1..] == kept[1..];
        FillLayersSizes(more, queue[1..], target);
      }
    } else {
      FillLayersSizes(kept[1..], queue, target);
    }
  }

  lemma {:induction false} FillLayersConserve(kept: Layering, queue: seq<MixDescriptor>, target: nat)
    ensures var r := FillLayers(kept, queue, target);
            r.Some? ==> multiset(Flat(r.value.0)) + multiset(r.value.1) == multiset(Flat(kept)) + multiset(queue)
    decreases |kept|, if kept == [] then 0 else target - |kept[0]|
  {
    if kept == [] {
    } else if |kept[0]| < target {
      if queue != [] {
        var more := [kept[0] + [queue[0]]] + kept[1..];
        FillLayersConserve(more, queue[1..], target);
        assert more == kept[0 := kept[0] + [queue[0]]];
        FlatExtend(kept, 0, queue[0]);
        assert multiset(queue)
          == multiset{queue[0]} + multiset(queue[1..]) by { assert queue == [queue[0]] + queue[1..]; }
      }
    } else {
      FillLayersConserve(kept[1..], queue, target);
      var r := FillLayers(kept[1..], queue, target);
      if r.Some? {
        KeepConsBag(kept[0], r.value.0, multiset(Flat(kept)) + multiset(queue),
          multiset(Flat(kept[1..])) + multiset(queue), multiset(r.value.1));
      }
    }
  }

  /** How many of `n` nodes dealt to `layers` layers in turn go to layer `i`. */
  ghost function Share(n: int, layers: nat, i: nat): nat
    requires layers > 0
  {
    if n <= 0 then 0 else Share(n - 1, layers, i) + if (n - 1) % layers == i then 1 else 0
  }

  lemma {:induction false} ShareClosed(n: nat, layers: nat, i: nat)
    requires i < layers
    ensures Share(n, layers, i) == n / layers + if i < n % layers then 1 else 0
  {
    if n == 0 {
      DivUnique(0, layers, 0, 0);
    } else {
      ShareClosed(n - 1, layers, i);
      DivSucc(n - 1, layers);
    }
  }

  lemma {:induction false} DealSizes(t: Layering, queue: seq<MixDescriptor>, i: nat)
    requires i < |t|
    ensures var r := Deal(t, queue); t[i] <= r[i] && |r[i]| == |t[i]| + Share(|queue|, |t|, i)
  {
    if queue != [] {
      DealSizes(t, queue[..|queue| - 1], i);
    }
  }

  lemma BagPush<T>(after: multiset<T>, before: multiset<T>, start: multiset<T>, part: multiset<T>, whole: multiset<T>,
                   x: T)
    requires after == before + multiset{x} && before == start + part && whole == part + multiset{x}
    ensures after == start + whole
  {
  }

  lemma LastBag(queue: seq<MixDescriptor>)
    requires queue != []
    ensures var n := |queue| - 1; multiset(queue) == multiset(queue[..n]) + multiset{queue[n]}
  {
    assert queue == queue[..|queue| - 1] + [queue[|queue| - 1]];
  }

  lemma {:induction false} DealConserves(t: Layering, queue: seq<MixDescriptor>)
    requires t != []
    ensures multiset(Flat(Deal(t, queue))) == multiset(Flat(t)) + multiset(queue)
  {
    if queue != [] {
      var n := |queue| - 1;
      DealConserves(t, queue[..n]);
      FlatExtend(Deal(t, queue[..n]), n % |t|, queue[n]);
      LastBag(queue);
      BagPush(multiset(Flat(Deal(t, queue))), multiset(Flat(Deal(t, queue[..n]))), multiset(Flat(t)),
              multiset(queue[..n]), multiset(queue), queue[n]);
    }
  }

  lemma {:induction false} FlatNoLayers(n: nat)
    ensures Flat(NoLayers(n)) == []
  {
    if n > 0 {
      assert NoLayers(n)[1..] == NoLayers(n - 1);
      FlatNoLayers(n - 1);
    }
  }

  // --- the generators

  /** Every layering exactly as large as the generators make it: a partition of `nodes` into `layers` layers
      in which layer `i` has one node more than the quotient if and only if `i` is below the remainder. */
  ghost predicate EvenPartition(t: Layering, nodes: seq<MixDescriptor>, layers: nat) {
    && layers > 0
    && |t| == layers
    && multiset(Flat(t)) == multiset(nodes)
    && forall i | 0 <= i < layers :: |t[i]| == |nodes| / layers + if i < |nodes| % layers then 1 else 0
  }

  /** For every input: when the generator panics, and otherwise where every node lands and how large each layer is. */
  lemma NextTopologyExact(nodes: seq<MixDescriptor>, previous: Layering, layers: nat, target: nat, rng: Rng)
    requires layers > 0 ==> target == |nodes| / layers
    ensures var r := NextTopology(nodes, previous, layers, rng);
            && (r.None? <==> layers == 0 || |previous| > layers || |previous| * target > |Ids(nodes)|)
            && (r.Some? ==>
                && |r.value| == layers
                && multiset(Flat(r.value)) == Bag(NodeMap(nodes))
                && ExactSizes(r.value, |previous|, target, |Ids(nodes)|))
  {
    if layers != 0 && |previous| <= layers {
      NextWithTargetExact(nodes, previous, layers, target, rng);
    }
  }

  /** The first `full` layers hold the target, and what is left of `n` nodes is shared by all layers in turn. */
  ghost predicate ExactSizes(t: Layering, full: nat, target: nat, n: nat) {
    forall i | 0 <= i < |t| :: |t[i]| == (if i < full then target else 0) + Share(n - full * target, |t|, i)
  }

  lemma NextWithTargetExact(nodes: seq<MixDescriptor>, previous: Layering, layers: nat, target: nat, rng: Rng)
    requires 0 < layers && |previous| <= layers
    ensures var r := NextWithTarget(nodes, previous, layers, target, rng);
            && (r.None? <==> |previous| * target > |Ids(nodes)|)
            && (r.Some? ==>
                && |r.value| == layers
                && multiset(Flat(r.value)) == Bag(NodeMap(nodes))
                && ExactSizes(r.value, |previous|, target, |Ids(nodes)|))
  {
    var kept, queue := FirstPass(nodes, previous, target, rng);
    PlaceFacts(kept, queue, target, layers);
  }

  lemma PlaceFacts(kept: Layering, queue: seq<MixDescriptor>, target: nat, layers: nat)
    requires 0 < layers && |kept| <= layers && forall i | 0 <= i < |kept| :: |kept[i]| <= target
    ensures var all := multiset(Flat(kept)) + multiset(queue);
            var r := Place(kept, queue, target, layers);
            && (r.None? <==> |kept| * target > |all|)
            && (r.Some? ==>
                && |r.value| == layers
                && multiset(Flat(r.value)) == all
                && (forall i | 0 <= i < |kept| :: kept[i] <= r.value[i])
                && ExactSizes(r.value, |kept|, target, |all|))
  {
    FillFacts(kept, queue, target);
    var filled := FillLayers(kept, queue, target);
    if filled.Some? {
      var (full, spare) := filled.value;
      LandBag(full, spare, layers);
      LandSizes(full, spare, layers, target);
    }
  }

  /** The fill runs dry exactly when there are fewer nodes than places, and otherwise spares the difference. */
  lemma FillFacts(kept: Layering, queue: seq<MixDescriptor>, target: nat)
    requires forall i | 0 <= i < |kept| :: |kept[i]| <= target
    ensures var all := multiset(Flat(kept)) + multiset(queue);
            var r := FillLayers(kept, queue, target);
            && (r.None? <==> |kept| * target > |all|)
            && (r.Some? ==>
                && multiset(Flat(r.value.0)) + multiset(r.value.1) == all
                && |r.value.1| == |all| - |kept| * target
                && forall i | 0 <= i < |kept| :: |r.value.0[i]| == target && kept[i] <= r.value.0[i])
  {
    assert |multiset(Flat(kept))| == |Flat(kept)| && |multiset(queue)| == |queue|;
    ShortfallTotal(kept, target);
    FillLayersSizes(kept, queue, target);
    FillLayersConserve(kept, queue, target);
    var filled := FillLayers(kept, queue, target);
    if filled.Some? {
      SpareSize(filled.value.0, filled.value.1, target, multiset(Flat(kept)) + multiset(queue));
    }
  }

  /** What is kept and what waits are together all nodes, so the fill runs dry exactly when there are too few. */
  lemma FirstPass(nodes: seq<MixDescriptor>, previous: Layering, target: nat, rng: Rng)
    returns (kept: Layering, queue: seq<MixDescriptor>)
    ensures kept == KeepLayers(previous, [], rng, NodeMap(nodes), target).0
    ensures queue == Queue(KeepLayers(previous, [], rng, NodeMap(nodes), target).1, Lengths(previous), rng)
    ensures |kept| == |previous| && (forall i | 0 <= i < |kept| :: |kept[i]| <= target)
    ensures multiset(Flat(kept)) + multiset(queue) == Bag(NodeMap(nodes)) && |Bag(NodeMap(nodes))| == |Ids(nodes)|
  {
    var m := NodeMap(nodes);
    var all := KeepLayers(previous, [], rng, m, target);
    kept := all.0;
    queue := Queue(all.1, Lengths(previous), rng);
    NodeMapKeyed(nodes);
    BagSize(m);
    assert |m| == |m.Keys|;
    KeepLayersConserve(previous, [], rng, m, target);
    QueueBag(all.1, Lengths(previous), rng);
  }

  lemma QueueBag(pending: map<Id, MixDescriptor>, history: seq<nat>, rng: Rng)
    requires Keyed(pending)
    ensures multiset(Queue(pending, history, rng)) == Bag(pending)
  {
    var sorted := InIdOrder(pending);
    SelectBag(sorted, Draw(rng, history, |sorted|));
    InIdOrderBag(pending);
  }

  lemma SpareSize(full: Layering, spare: seq<MixDescriptor>, target: nat, all: multiset<MixDescriptor>)
    requires (forall i | 0 <= i < |full| :: |full[i]| == target) && multiset(Flat(full)) + multiset(spare) == all
    ensures |spare| == |all| - |full| * target
  {
    FlatExact(full, target);
    assert |multiset(Flat(full))| == |Flat(full)| && |multiset(spare)| == |spare|;
  }

  lemma {:induction false} FlatExact(t: Layering, target: nat)
    requires forall i | 0 <= i < |t| :: |t[i]| == target
    ensures |Flat(t)| == |t| * target
  {
    if t != [] {
      FlatExact(t[1..], target);
      assert |t| * target == target + |t[1..]| * target;
    }
  }

  lemma LandBag(full: Layering, spare: seq<MixDescriptor>, layers: nat)
    requires 0 < layers && |full| <= layers
    ensures multiset(Flat(Deal(full + NoLayers(layers - |full|), spare))) == multiset(Flat(full)) + multiset(spare)
  {
    DealConserves(full + NoLayers(layers - |full|), spare);
    FlatAppend(full, NoLayers(layers - |full|));
    FlatNoLayers(layers - |full|);
    assert Flat(full) + [] == Flat(full);
  }

  lemma LandSizes(full: Layering, spare: seq<MixDescriptor>, layers: nat, target: nat)
    requires 0 < layers && |full| <= layers && forall i | 0 <= i < |full| :: |full[i]| == target
    ensures var t := Deal(full + NoLayers(layers - |full|), spare);
            && (forall i | 0 <= i < |full| :: full[i] <= t[i])
            && forall i | 0 <= i < layers :: |t[i]| == (if i < |full| then target else 0) + Share(|spare|, layers, i)
  {
    var start := full + NoLayers(layers - |full|);
    var t := Deal(start, spare);
    forall i | 0 <= i < layers ensures start[i] <= t[i] && |t[i]| == |start[i]| + Share(|spare|, layers, i) {
      DealSizes(start, spare, i);
    }
  }

  /** The ordinary case: distinct identities and a previous document with all layers. */
  lemma NextTopologyEven(nodes: seq<MixDescriptor>, previous: Layering, layers: nat, rng: Rng)
    requires Unique(nodes) && layers > 0 && |previous| == layers
    ensures var t := NextTopology(nodes, previous, layers, rng); t.Some? && EvenPartition(t.value, nodes, layers)
  {
    NextTopologyExact(nodes, previous, layers, |nodes| / layers, rng);
    NodeMapBag(nodes);
    EvenSizes(NextTopology(nodes, previous, layers, rng), nodes, layers);
  }

  lemma EvenSizes(t: Option<Layering>, nodes: seq<MixDescriptor>, layers: nat)
    requires layers > 0 && (t.None? <==> layers * (|nodes| / layers) > |nodes|)
    requires t.Some? ==> |t.value| == layers && multiset(Flat(t.value)) == multiset(nodes)
                         && ExactSizes(t.value, layers, |nodes| / layers, |nodes|)
    ensures t.Some? && EvenPartition(t.value, nodes, layers)
  {
    var n := |nodes|;
    RemainderLeft(n, layers);
    forall i | 0 <= i < layers ensures |t.value[i]| == n / layers + if i < n % layers then 1 else 0 {
      ShareSmall(n % layers, layers, i);
    }
  }

  lemma {:induction false} ShareSmall(r: nat, layers: nat, i: nat)
    requires i < layers && r < layers
    ensures Share(r, layers, i) == if i < r then 1 else 0
  {
    if r > 0 {
      ShareSmall(r - 1, layers, i);
      SmallRemainder(r - 1, layers);
    }
  }

  lemma RandomTopologyEven(nodes: seq<MixDescriptor>, layers: nat, rng: Rng)
    requires layers > 0
    ensures var t := RandomTopology(nodes, layers, rng); t.Some? && EvenPartition(t.value, nodes, layers)
  {
    FlatNoLayers(layers);
    if nodes == [] {
      DivUnique(0, layers, 0, 0);
    } else {
      var queue := Select(nodes, Draw(rng, [], |nodes|));
      SelectBag(nodes, Draw(rng, [], |nodes|));
      LandBag([], queue, layers);
      assert [] + NoLayers(layers) == NoLayers(layers);
      forall i | 0 <= i < layers
        ensures |Deal(NoLayers(layers), queue)[i]| == |nodes| / layers + if i < |nodes| % layers then 1 else 0
      {
        DealSizes(NoLayers(layers), queue, i);
        ShareClosed(|nodes|, layers, i);
      }
    }
  }
}
