/** In which place every node lands: the answers of the random reader decide it, and nothing else does. */
module Placement {
  import opened Prelude
  import opened Pki
  import opened Topology
  import opened TopologyFacts
  import opened Retention

  // --- dealing and filling

  /** The `j`-th node that is dealt goes to layer `j % |t|`, after `j / |t|` others that were dealt to it. */
  lemma {:induction false} DealAt(t: Layering, queue: seq<MixDescriptor>, j: nat)
    requires t != [] && j < |queue|
    ensures var (i, place) := (j % |t|, |t[j % |t|]| + j / |t|);
            place < |Deal(t, queue)[i]| && Deal(t, queue)[i][place] == queue[j]
  {
    var n := |queue| - 1;
    var i := j % |t|;
    if j == n {
      DealSizes(t, queue[..n], i);
      ShareClosed(n, |t|, i);
    } else {
      DealAt(t, queue[..n], j);
      DealKeeps(t, queue, i);
    }
  }

  lemma Pushed(t: Layering, k: nat, d: MixDescriptor, i: nat)
    requires k < |t| && i < |t|
    ensures t[i] <= t[k := t[k] + [d]][i]
  {
  }

  /** Dealing the last node leaves the others where they are. */
  lemma DealKeeps(t: Layering, queue: seq<MixDescriptor>, i: nat)
    requires t != [] && queue != [] && i < |t|
    ensures Deal(t, queue[..|queue| - 1])[i] <= Deal(t, queue)[i]
  {
    hide Deal;
    var n := |queue| - 1;
    assert queue[..n + 1] == queue;
    DealNext(t, queue, n);
    Pushed(Deal(t, queue[..n]), n % |t|, queue[n], i);
  }

  /** What layer `i` gets when the short layers take the queue in order: it begins where the layers before it end. */
  ghost predicate Filled(kept: Layering, queue: seq<MixDescriptor>, target: nat, i: nat, r: Option<(Layering,
                         seq<MixDescriptor>)>)
    requires i < |kept| && |kept[i]| <= target
  {
    var (from, size) := (Shortfall(kept[..i], target), target - |kept[i]|);
    && r.Some? && |r.value.0| == |kept|
    && 0 <= from && from + size <= |queue| && r.value.0[i] == kept[i] + queue[from..from + size]
  }

  lemma {:induction false} FillAt(kept: Layering, queue: seq<MixDescriptor>, target: nat, i: nat)
    requires (forall l | 0 <= l < |kept| :: |kept[l]| <= target) && Shortfall(kept, target) <= |queue| && i < |kept|
    ensures Filled(kept, queue, target, i, FillLayers(kept, queue, target))
    decreases |kept|, target - |kept[0]|
  {
    hide Filled;
    ShortfallTotal(kept[1..], target);
    if |kept[0]| < target {
      var more := [kept[0] + [queue[0]]] + kept[1..];
      assert more[1..] == kept[1..];
      FillAt(more, queue[1..], target, i);
      FillOne(kept, more, queue, target, i, FillLayers(more, queue[1..], target));
    } else if i == 0 {
      FillLayersSizes(kept[1..], queue, target);
      FilledFirst(kept, queue, target, FillLayers(kept, queue, target));
    } else {
      FillLayersSizes(kept[1..], queue, target);
      FillAt(kept[1..], queue, target, i - 1);
      FillRest(kept, queue, target, i, FillLayers(kept[1..], queue, target));
    }
  }

  lemma FilledFirst(kept: Layering, queue: seq<MixDescriptor>, target: nat, r: Option<(Layering, seq<MixDescriptor>)>)
    requires kept != [] && |kept[0]| == target && r.Some? && |r.value.0| == |kept| && r.value.0[0] == kept[0]
    ensures Filled(kept, queue, target, 0, r)
  {
    assert kept[..0] == [] && queue[0..0] == [];
  }

  lemma FillOne(kept: Layering, more: Layering, queue: seq<MixDescriptor>, target: nat, i: nat,
                r: Option<(Layering, seq<MixDescriptor>)>)
    requires i < |kept| && queue != [] && |kept[0]| < target && |kept[i]| <= target
    requires more == [kept[0] + [queue[0]]] + kept[1..] && |more[i]| <= target
    requires Filled(more, queue[1..], target, i, r)
    ensures Filled(kept, queue, target, i, r)
  {
    if i == 0 {
      assert kept[..0] == [] == more[..0];
      assert [queue[0]] + queue[1..][0..target - |more[0]|] == queue[0..target - |kept[0]|];
    } else {
      assert more[..i][1..] == kept[..i][1..];
      var from := Shortfall(kept[..i], target);
      assert queue[1..][from - 1..from - 1 + target - |kept[i]|] == queue[from..from + target - |kept[i]|];
    }
  }

  lemma FillRest(kept: Layering, queue: seq<MixDescriptor>, target: nat, i: nat, r: Option<(Layering,
                 seq<MixDescriptor>)>)
    requires 0 < i < |kept| && |kept[0]| == target && |kept[i]| <= target
    requires Filled(kept[1..], queue, target, i - 1, r)
    ensures Filled(kept, queue, target, i, Some(([kept[0]] + r.value.0, r.value.1)))
  {
    assert kept[..i][1..] == kept[1..][..i - 1];
  }

  /** What the fill leaves is the rest of the queue. */
  lemma {:induction false} FillSpares(kept: Layering, queue: seq<MixDescriptor>, target: nat)
    requires (forall l | 0 <= l < |kept| :: |kept[l]| <= target) && Shortfall(kept, target) <= |queue|
    ensures var r := FillLayers(kept, queue, target);
            r.Some? && 0 <= Shortfall(kept, target) && r.value.1 == queue[Shortfall(kept, target)..]
    decreases |kept|, if kept == [] then 0 else target - |kept[0]|
  {
    if kept != [] {
      ShortfallTotal(kept[1..], target);
      if |kept[0]| < target {
        var more := [kept[0] + [queue[0]]] + kept[1..];
        assert more[1..] == kept[1..];
        FillSpares(more, queue[1..], target);
        assert queue[1..][Shortfall(more, target)..] == queue[Shortfall(kept, target)..];
      } else {
        FillSpares(kept[1..], queue, target);
      }
    }
  }

  // --- the first pass

  /** How many of the nodes at the given positions are among `ids`. */
  ghost function Drawn(former: seq<MixDescriptor>, order: seq<nat>, ids: set<Id>): nat
    requires forall i | 0 <= i < |order| :: order[i] < |former|
  {
    if order == [] then 0
    else (if former[order[0]].id in ids then 1 else 0) + Drawn(former, order[1..], ids)
  }

  lemma {:induction false} DrawnWithout(former: seq<MixDescriptor>, order: seq<nat>, ids: set<Id>, id: Id)
    requires (forall i | 0 <= i < |order| :: order[i] < |former|) && id !in At(former, order)
    ensures Drawn(former, order, ids - {id}) == Drawn(former, order, ids)
  {
    if order != [] {
      AtCons(former, order);
      DrawnWithout(former, order[1..], ids, id);
    }
  }

  /** No identity occurs at two of the positions. */
  ghost predicate Distinct(former: seq<MixDescriptor>, order: seq<nat>)
    requires forall i | 0 <= i < |order| :: order[i] < |former|
  {
    |At(former, order)| == |order|
  }

  lemma {:induction false} FewerAt(former: seq<MixDescriptor>, order: seq<nat>)
    requires forall i | 0 <= i < |order| :: order[i] < |former|
    ensures |At(former, order)| <= |order|
  {
    if order == [] {
      assert At(former, order) == {};
    } else {
      AtCons(former, order);
      FewerAt(former, order[1..]);
    }
  }

  lemma DistinctTail(former: seq<MixDescriptor>, order: seq<nat>)
    requires order != [] && (forall i | 0 <= i < |order| :: order[i] < |former|) && Distinct(former, order)
    ensures former[order[0]].id !in At(former, order[1..]) && Distinct(former, order[1..])
  {
    AtCons(former, order);
    FewerAt(former, order[1..]);
    var (head, rest) := ({former[order[0]].id}, At(former, order[1..]));
    UnionSize(head, rest);
    assert former[order[0]].id in head;
  }

  lemma AtPrefix(former: seq<MixDescriptor>, order: seq<nat>, k: nat)
    requires (forall i | 0 <= i < |order| :: order[i] < |former|) && k <= |order|
    ensures At(former, order[..k]) <= At(former, order)
  {
  }

  /** Of a layer's former nodes, drawn in `order`, the one at position `k` stays if it is pending and the target is not
      reached by the pending ones drawn before it, which are also the ones before it in the new layer. */
  lemma {:induction false} KeepAt(former: seq<MixDescriptor>, order: seq<nat>, pending: map<Id, MixDescriptor>,
                                  kept: seq<MixDescriptor>, target: nat, k: nat)
    requires (forall i | 0 <= i < |order| :: order[i] < |former|) && Distinct(former, order) && k < |order|
    requires former[order[k]].id in pending && |kept| + Drawn(former, order[..k], pending.Keys) < target
    ensures var (layer, place) := (KeepLayer(former, order, pending, kept, target).0,
            |kept| + Drawn(former, order[..k], pending.Keys));
            kept <= layer && place < |layer| && layer[place] == pending[former[order[k]].id]
  {
    var id, rest := former[order[0]].id, order[1..];
    DistinctTail(former, order);
    if k == 0 {
      KeepPrefix(former, rest, pending - {id}, kept + [pending[id]], target);
    } else {
      assert order[..k][1..] == rest[..k - 1];
      if id in pending {
        AtPrefix(former, rest, k - 1);
        DrawnWithout(former, rest[..k - 1], pending.Keys, id);
        assert former[rest[k - 1]].id in At(former, rest);
        assert (pending - {id}).Keys == pending.Keys - {id};
        KeepAt(former, rest, pending - {id}, kept + [pending[id]], target, k - 1);
      } else {
        KeepAt(former, rest, pending, kept, target, k - 1);
      }
    }
  }

  lemma {:induction false} KeepPrefix(former: seq<MixDescriptor>, order: seq<nat>, pending: map<Id, MixDescriptor>,
                                      kept: seq<MixDescriptor>, target: nat)
    requires forall i | 0 <= i < |order| :: order[i] < |former|
    ensures kept <= KeepLayer(former, order, pending, kept, target).0
  {
    if order != [] && |kept| < target {
      var id := former[order[0]].id;
      if id in pending {
        KeepPrefix(former, order[1..], pending - {id}, kept + [pending[id]], target);
      } else {
        KeepPrefix(former, order[1..], pending, kept, target);
      }
    }
  }

  // --- all layers

  /** The reader's order for former layer `i`. */
  function DrawnOrder(rng: Rng, previous: Layering, i: nat): seq<nat>
    requires i < |previous|
  {
    rng(Lengths(previous[..i]), |previous[i]|)
  }

  /** Layer `i` of the first pass keeps what its own former nodes allow: nodes of other layers do not matter. */
  lemma {:induction false} LayerKept(previous: Layering, history: seq<nat>, rng: Rng, pending: map<Id, MixDescriptor>,
                                     target: nat, i: nat) returns (m: map<Id, MixDescriptor>)
    requires i < |previous| && Keyed(pending) && Unique(Flat(previous))
    ensures KeepLayers(previous, history, rng, pending, target).0[i]
            == KeepLayer(previous[i], Draw(rng, history + Lengths(previous[..i]), |previous[i]|), m, [], target).0
    ensures forall id | id in Ids(previous[i]) :: (id in m <==> id in pending) && (id in m ==> m[id] == pending[id])
    decreases |previous|
  {
    hide KeepLayers, Keyed, Draw;
    KeepLayersAt(previous, history, rng, pending, target, i);
    if i == 0 {
      m := pending;
      assert history + Lengths(previous[..0]) == history;
    } else {
      var (others, n) := (previous[1..], |previous[0]|);
      FlatSplit(previous);
      FirstKeptFacts(previous, history, rng, pending, target);
      FirstKeptSame(previous, history, rng, pending, target);
      var rest := FirstKept(previous, history, rng, pending, target).1;
      FlatMemberIds(others, i - 1);
      assert others[i - 1] == previous[i];
      LengthsCons(previous, history, i);
      m := LayerKept(others, history + [n], rng, rest, target, i - 1);
    }
  }

  lemma LengthsCons(previous: Layering, history: seq<nat>, i: nat)
    requires 0 < i <= |previous|
    ensures history + Lengths(previous[..i]) == history + [|previous[0]|] + Lengths(previous[1..][..i - 1])
  {
  }

  /** What stays pending keeps its descriptor. */
  lemma FirstKeptSame(previous: Layering, history: seq<nat>, rng: Rng, pending: map<Id, MixDescriptor>, target: nat)
    requires previous != []
    ensures var rest := FirstKept(previous, history, rng, pending, target).1;
            forall id | id in rest :: id in pending && rest[id] == pending[id]
  {
    KeepLayerSame(previous[0], Draw(rng, history, |previous[0]|), pending, [], target);
  }

  lemma {:induction false} KeepLayerSame(former: seq<MixDescriptor>, order: seq<nat>, pending: map<Id, MixDescriptor>,
                                         kept: seq<MixDescriptor>, target: nat)
    requires forall i | 0 <= i < |order| :: order[i] < |former|
    ensures var rest := KeepLayer(former, order, pending, kept, target).1;
            forall id | id in rest :: id in pending && rest[id] == pending[id]
  {
    if order != [] && |kept| < target {
      var id := former[order[0]].id;
      if id in pending {
        KeepLayerSame(former, order[1..], pending - {id}, kept + [pending[id]], target);
      } else {
        KeepLayerSame(former, order[1..], pending, kept, target);
      }
    }
  }

  // --- the layering of the generators

  /** How many nodes stay in layer `i`: the target, or all that come back if they are fewer. */
  ghost function Staying(nodes: seq<MixDescriptor>, previous: Layering, target: nat, i: nat): nat
    requires i < |previous|
  {
    Min(target, |Ids(previous[i]) * Ids(nodes)|)
  }

  /** How many places the staying nodes leave in the first `i` layers. */
  ghost function OpenBefore(nodes: seq<MixDescriptor>, previous: Layering, target: nat, i: nat): nat
    requires i <= |previous|
  {
    if i == 0 then 0 else OpenBefore(nodes, previous, target, i - 1) + target - Staying(nodes, previous, target, i - 1)
  }

  /** What the two passes leave in place: `kept` is the first pass, `rest` what it leaves, `t` the result. */
  ghost predicate Passes(nodes: seq<MixDescriptor>, previous: Layering, layers: nat, target: nat, rng: Rng,
                         kept: Layering, rest: map<Id, MixDescriptor>, t: Layering)
  {
    && (kept, rest) == KeepLayers(previous, [], rng, NodeMap(nodes), target)
    && 0 < layers && |previous| <= layers && Place(kept, Queue(rest, Lengths(previous), rng), target, layers) == Some(t)
  }

  /** The inputs for which the generator is meant: distinct identities in the list and in the former layering. */
  ghost predicate Proper(nodes: seq<MixDescriptor>, previous: Layering, layers: nat) {
    layers > 0 && |previous| <= layers && Unique(nodes) && Unique(Flat(previous))
  }

  lemma OutcomeOf(nodes: seq<MixDescriptor>, previous: Layering, layers: nat, target: nat, rng: Rng)
    returns (kept: Layering, rest: map<Id, MixDescriptor>, t: Layering)
    requires Proper(nodes, previous, layers) && target == |nodes| / layers
    ensures NextTopology(nodes, previous, layers, rng) == Some(t) && |t| == layers
    ensures Passes(nodes, previous, layers, target, rng, kept, rest, t)
    ensures |kept| == |previous|
    ensures forall i | 0 <= i < |kept| :: |kept[i]| == Staying(nodes, previous, target, i) && kept[i] <= t[i]
    ensures Keyed(rest) && multiset(Flat(kept)) + Bag(rest) == multiset(nodes)
  {
    var m := NodeMap(nodes);
    var queue;
    kept, queue := FirstPass(nodes, previous, target, rng);
    rest := KeepLayers(previous, [], rng, m, target).1;
    NextTopologyExact(nodes, previous, layers, target, rng);
    TargetFits(|nodes|, layers, |previous|);
    PlaceFacts(kept, queue, target, layers);
    t := NextTopology(nodes, previous, layers, rng).value;
    NodeMapBag(nodes);
    NodeMapKeyed(nodes);
    KeepLayersConserve(previous, [], rng, m, target);
    forall i | 0 <= i < |kept| ensures |kept[i]| == Staying(nodes, previous, target, i) {
      KeepLayersCount(previous, [], rng, m, target, i);
    }
  }

  lemma TargetFits(n: nat, layers: nat, full: nat)
    requires layers > 0 && full <= layers
    ensures full * (n / layers) <= n
  {
    RemainderLeft(n, layers);
    MulMonotone(n / layers, full, layers);
  }

  lemma {:induction false} DrawnSame(former: seq<MixDescriptor>, order: seq<nat>, a: set<Id>, b: set<Id>)
    requires forall i | 0 <= i < |order| :: order[i] < |former|
    requires forall id | id in Ids(former) :: id in a <==> id in b
    ensures Drawn(former, order, a) == Drawn(former, order, b)
  {
    if order != [] {
      assert former[order[0]].id in Ids(former);
      DrawnSame(former, order[1..], a, b);
    }
  }

  /** `p` is a permutation of the positions below `n`. */
  predicate Permutes(p: seq<nat>, n: nat) {
    IsPermutation(p, n) && forall j | 0 <= j < |p| :: p[j] < n
  }

  /** The same for a permutation of the whole former layer, with the identities that come back. */
  lemma KeepDrawn(former: seq<MixDescriptor>, p: seq<nat>, pending: map<Id, MixDescriptor>, ids: set<Id>, target: nat,
                  k: nat)
    requires Permutes(p, |former|) && |Ids(former)| == |former| && k < |p| && former[p[k]].id in ids
    requires forall id | id in Ids(former) :: id in pending <==> id in ids
    requires Drawn(former, p[..k], ids) < target
    ensures var (layer, place) := (KeepLayer(former, p, pending, [], target).0, Drawn(former, p[..k], ids));
            && former[p[k]].id in pending
            && place < |layer| && layer[place] == pending[former[p[k]].id]
  {
    hide KeepLayer, Drawn;
    assert former[p[k]].id in Ids(former);
    AtPermutation(former, p);
    DrawnSame(former, p[..k], pending.Keys, ids);
    KeepAt(former, p, pending, [], target, k);
  }

  lemma KeptPlace(nodes: seq<MixDescriptor>, previous: Layering, target: nat, rng: Rng, i: nat, k: nat)
    requires Unique(Flat(previous)) && i < |previous| && k < |previous[i]|
    requires Permutes(DrawnOrder(rng, previous, i), |previous[i]|)
    requires previous[i][DrawnOrder(rng, previous, i)[k]].id in Ids(nodes)
    requires Drawn(previous[i], DrawnOrder(rng, previous, i)[..k], Ids(nodes)) < target
    ensures var (kept, p) := (KeepLayers(previous, [], rng, NodeMap(nodes), target).0[i], DrawnOrder(rng, previous, i));
            var place := Drawn(previous[i], p[..k], Ids(nodes));
            place < |kept| && kept[place] in nodes && kept[place].id == previous[i][p[k]].id
  {
    hide KeepLayers, KeepLayer, NodeMap, Flat, Drawn;
    var (p, former) := (DrawnOrder(rng, previous, i), previous[i]);
    NodeMapKeyed(nodes);
    var pending := LayerKept(previous, [], rng, NodeMap(nodes), target, i);
    assert [] + Lengths(previous[..i]) == Lengths(previous[..i]);
    assert former[p[k]].id in Ids(former);
    LayerIds(previous, i);
    KeepDrawn(former, p, pending, Ids(nodes), target, k);
    NodeMapMember(nodes, former[p[k]].id);
  }

  /** Where a node that comes back stays: of former layer `i`, drawn in the reader's order, position `k` keeps the layer
      if fewer than the target of those before it come back, and then it stands after exactly these. */
  lemma StayingPlaces(nodes: seq<MixDescriptor>, previous: Layering, layers: nat, rng: Rng, i: nat, k: nat)
    requires Proper(nodes, previous, layers) && i < |previous| && k < |previous[i]|
    requires Permutes(DrawnOrder(rng, previous, i), |previous[i]|)
    requires previous[i][DrawnOrder(rng, previous, i)[k]].id in Ids(nodes)
    requires Drawn(previous[i], DrawnOrder(rng, previous, i)[..k], Ids(nodes)) < |nodes| / layers
    ensures var (t, p) := (NextTopology(nodes, previous, layers, rng), DrawnOrder(rng, previous, i));
            var place := Drawn(previous[i], p[..k], Ids(nodes));
            && t.Some? && |t.value| == layers && place < |t.value[i]|
            && t.value[i][place] in nodes && t.value[i][place].id == previous[i][p[k]].id
  {
    hide KeepLayers, NextTopology, Passes, NodeMap, Flat, Drawn;
    var target := |nodes| / layers;
    var kept, rest, t := OutcomeOf(nodes, previous, layers, target, rng);
    KeptPlace(nodes, previous, target, rng, i, k);
    KeptLayer(nodes, previous, layers, target, rng, kept, rest, t, i);
  }

  lemma KeptLayer(nodes: seq<MixDescriptor>, previous: Layering, layers: nat, target: nat, rng: Rng,
                  kept: Layering, rest: map<Id, MixDescriptor>, t: Layering, i: nat)
    requires Passes(nodes, previous, layers, target, rng, kept, rest, t) && i < |previous|
    ensures |kept| == |previous| && kept[i] == KeepLayers(previous, [], rng, NodeMap(nodes), target).0[i]
  {
    hide KeepLayers, Place;
  }

  // --- the nodes that move or are new

  /** The list of the nodes that no layer keeps, sorted. */
  ghost predicate Waiting(nodes: seq<MixDescriptor>, previous: Layering, target: nat, t: Layering,
                          waiting: seq<MixDescriptor>)
  {
    && |previous| <= |t| && (forall i | 0 <= i < |previous| :: Staying(nodes, previous, target, i) <= |t[i]|)
    && Sorted(waiting) && Unique(waiting)
    && forall d :: d in waiting <==>
         d in nodes && forall i | 0 <= i < |previous| :: d !in t[i][..Staying(nodes, previous, target, i)]
  }

  /** There is only one such list: the pending nodes in the order of identities. */
  lemma WaitingIs(nodes: seq<MixDescriptor>, previous: Layering, target: nat, kept: Layering, rest: map<Id,
                  MixDescriptor>,
                  t: Layering, waiting: seq<MixDescriptor>)
    requires |kept| == |previous| <= |t| && Unique(nodes) && Keyed(rest)
    requires forall i | 0 <= i < |kept| :: |kept[i]| == Staying(nodes, previous, target, i) && kept[i] <= t[i]
    requires multiset(Flat(kept)) + Bag(rest) == multiset(nodes)
    requires Waiting(nodes, previous, target, t, waiting)
    ensures waiting == InIdOrder(rest)
  {
    var s := InIdOrder(rest);
    InIdOrderSorted(rest);
    InIdOrderBag(rest);
    forall d ensures d in waiting <==> d in s {
      AtMostOnce(nodes, d);
      assert d in s <==> d in multiset(s);
      assert d in Flat(kept) <==> d in multiset(Flat(kept));
      assert multiset(nodes)[d] == multiset(Flat(kept))[d] + multiset(s)[d];
      InKept(kept, previous, nodes, target, t, d);
    }
    SameBag(s, waiting);
    SortedIsUnique(s, waiting);
  }

  lemma InKept(kept: Layering, previous: Layering, nodes: seq<MixDescriptor>, target: nat, t: Layering,
               d: MixDescriptor)
    requires |kept| == |previous| <= |t|
    requires forall i | 0 <= i < |kept| :: |kept[i]| == Staying(nodes, previous, target, i) && kept[i] <= t[i]
    ensures d in Flat(kept) <==> exists i :: 0 <= i < |previous| && d in t[i][..Staying(nodes, previous, target, i)]
  {
    FlatMember(kept, d);
    assert forall i | 0 <= i < |kept| :: t[i][..Staying(nodes, previous, target, i)] == kept[i];
  }

  lemma {:induction false} OpenIsShortfall(nodes: seq<MixDescriptor>, previous: Layering, target: nat, kept: Layering,
                                           i: nat)
    requires |kept| == |previous| && i <= |kept|
             && forall l | 0 <= l < |kept| :: |kept[l]| == Staying(nodes, previous, target, l)
    ensures Shortfall(kept[..i], target) == OpenBefore(nodes, previous, target, i)
  {
    hide Staying;
    if i == 0 {
      assert kept[..0] == [];
    } else {
      OpenIsShortfall(nodes, previous, target, kept, i - 1);
      ShortfallTo(kept, target, i - 1);
    }
  }

  lemma ShortfallTo(kept: Layering, target: nat, i: nat)
    requires i < |kept|
    ensures Shortfall(kept[..i + 1], target) == Shortfall(kept[..i], target) + target - |kept[i]|
  {
    hide Shortfall;
    ShortfallSnoc(kept[..i], kept[i], target);
    assert kept[..i + 1] == kept[..i] + [kept[i]];
  }

  /** What is dealt to the layers after the fill, in terms of the first pass. */
  lemma PlacedFrom(kept: Layering, queue: seq<MixDescriptor>, target: nat, layers: nat, t: Layering)
    requires 0 < layers && |kept| <= layers && Place(kept, queue, target, layers) == Some(t)
    requires forall l | 0 <= l < |kept| :: |kept[l]| <= target
    ensures |t| == layers && 0 <= Shortfall(kept, target) <= |queue|
    ensures forall i | 0 <= i < |kept| :: FilledIn(kept, queue, target, i, t)
    ensures forall j | 0
            <= j < |queue| - Shortfall(kept, target) :: DealtTo(|kept|, queue, target, layers, Shortfall(kept, target),
              j, t)
  {
    ShortfallTotal(kept, target);
    FillLayersSizes(kept, queue, target);
    FillSpares(kept, queue, target);
    var (full, spare) := FillLayers(kept, queue, target).value;
    var base := full + NoLayers(layers - |kept|);
    hide FillLayers;
    forall i | 0 <= i < |kept| ensures FilledIn(kept, queue, target, i, t) {
      FillAt(kept, queue, target, i);
      DealSizes(base, spare, i);
    }
    forall j | 0 <= j < |spare| ensures DealtTo(|kept|, queue, target, layers, Shortfall(kept, target), j, t) {
      DealAt(base, spare, j);
    }
  }

  /** Layer `i` holds what it kept and then its part of the queue. */
  ghost predicate FilledIn(kept: Layering, queue: seq<MixDescriptor>, target: nat, i: nat, t: Layering)
    requires i < |kept| && |kept[i]| <= target
  {
    var (from, size) := (Shortfall(kept[..i], target), target - |kept[i]|);
    && i < |t| && 0 <= from && from + size <= |queue| && kept[i] + queue[from..from + size] <= t[i]
  }

  /** The `j`-th node after the fill is in layer `j % layers`, above what the fill made of that layer. */
  ghost predicate DealtTo(full: nat, queue: seq<MixDescriptor>, target: nat, layers: nat, spent: nat, j: nat,
                          t: Layering)
    requires 0 < layers == |t| && spent + j < |queue|
  {
    var i := j % layers;
    var place := (if i < full then target else 0) + j / layers;
    place < |t[i]| && t[i][place] == queue[spent + j]
  }

  /** The reader's answer for the waiting nodes. */
  function DrawnLast(rng: Rng, previous: Layering, n: nat): seq<nat> {
    rng(Lengths(previous), n)
  }

  /** The layering `t` is the generator's, `waiting` its nodes that no layer keeps, and the reader answers properly. */
  ghost predicate Generated(nodes: seq<MixDescriptor>, previous: Layering, layers: nat, target: nat, rng: Rng,
                            t: Layering,
                            waiting: seq<MixDescriptor>)
  {
    && Proper(nodes, previous, layers) && target == |nodes| / layers
       && NextTopology(nodes, previous, layers, rng) == Some(t)
    && Waiting(nodes, previous, target, t, waiting) && Permutes(DrawnLast(rng, previous, |waiting|), |waiting|)
  }

  lemma QueueIs(nodes: seq<MixDescriptor>, previous: Layering, layers: nat, target: nat, rng: Rng, t: Layering,
                waiting: seq<MixDescriptor>)
    returns (kept: Layering, queue: seq<MixDescriptor>)
    requires Generated(nodes, previous, layers, target, rng, t, waiting)
    ensures layers > 0 && |kept| == |previous| <= layers
    ensures forall i | 0 <= i < |kept| :: |kept[i]| == Staying(nodes, previous, target, i) <= target
    ensures |DrawnLast(rng, previous, |waiting|)| == |waiting|
    ensures forall j | 0 <= j < |waiting| :: DrawnLast(rng, previous, |waiting|)[j] < |waiting|
    ensures Place(kept, queue, target, layers) == Some(t)
    ensures |queue| == |waiting|
            && forall j | 0 <= j < |queue| :: queue[j] == waiting[DrawnLast(rng, previous, |waiting|)[j]]
  {
    hide NextTopology, KeepLayers, Place, Waiting;
    var rest, u;
    kept, rest, u := OutcomeOf(nodes, previous, layers, target, rng);
    WaitingIs(nodes, previous, target, kept, rest, t, waiting);
    queue := Queue(rest, Lengths(previous), rng);
  }

  /** In layer `i` of `t`, at `place`, stands the node of `waiting` that was drawn as number `j`. */
  predicate StandsAt(t: Layering, i: nat, place: nat, waiting: seq<MixDescriptor>, p: seq<nat>, j: nat) {
    i < |t| && place < |t[i]| && j < |p| && p[j] < |waiting| && t[i][place] == waiting[p[j]]
  }

  /** Layers below the target take the waiting nodes in the order drawn: place `k` that layer `i` has open gets the node
      drawn after as many as the layers before it have places open, and `k` more. */
  lemma FilledPlaces(nodes: seq<MixDescriptor>, previous: Layering, layers: nat, target: nat, rng: Rng, t: Layering,
                     waiting: seq<MixDescriptor>, i: nat, k: nat)
    requires Generated(nodes, previous, layers, target, rng, t, waiting)
    requires i < |previous| && k < target - Staying(nodes, previous, target, i)
    ensures StandsAt(t, i, Staying(nodes, previous, target, i) + k, waiting, DrawnLast(rng, previous, |waiting|),
                     OpenBefore(nodes, previous, target, i) + k)
  {
    hide NextTopology, Place, Waiting, OpenBefore, Staying;
    var kept, queue := QueueIs(nodes, previous, layers, target, rng, t, waiting);
    hide Generated;
    PlacedFrom(kept, queue, target, layers, t);
    OpenIsShortfall(nodes, previous, target, kept, i);
    FilledStands(kept, queue, target, i, t, k);
  }

  lemma FilledStands(kept: Layering, queue: seq<MixDescriptor>, target: nat, i: nat, t: Layering, k: nat)
    requires i < |kept| && |kept[i]| + k < target && FilledIn(kept, queue, target, i, t)
    ensures var from := Shortfall(kept[..i], target);
            i < |t| && |kept[i]| + k < |t[i]| && 0 <= from && from + k < |queue|
              && t[i][|kept[i]| + k] == queue[from + k]
  {
    var (from, size) := (Shortfall(kept[..i], target), target - |kept[i]|);
    var part := queue[from..from + size];
    assert part[k] == queue[from + k] && (kept[i] + part)[|kept[i]| + k] == part[k];
  }

  /** Layer and place of the `j`-th node that is dealt in turn when the first `full` layers already hold the target. */
  function InTurn(layers: nat, full: nat, target: nat, j: nat): (nat, nat)
    requires layers > 0
  {
    (j % layers, (if j % layers < full then target else 0) + j / layers)
  }

  /** Then the layers in turn: after all open places are filled the `j`-th node drawn goes to layer `j % layers`. */
  lemma DealtPlaces(nodes: seq<MixDescriptor>, previous: Layering, layers: nat, target: nat, rng: Rng, t: Layering,
                    waiting: seq<MixDescriptor>, j: nat)
    requires Generated(nodes, previous, layers, target, rng, t, waiting)
    requires OpenBefore(nodes, previous, target, |previous|) + j < |waiting|
    ensures layers > 0
    ensures var (i, place) := InTurn(layers, |previous|, target, j);
            var p := DrawnLast(rng, previous, |waiting|);
            StandsAt(t, i, place, waiting, p, OpenBefore(nodes, previous, target, |previous|) + j)
  {
    hide NextTopology, Place, Waiting, OpenBefore, Staying;
    var kept, queue := QueueIs(nodes, previous, layers, target, rng, t, waiting);
    PlacedFrom(kept, queue, target, layers, t);
    hide Generated;
    OpenIsShortfall(nodes, previous, target, kept, |previous|);
    assert kept[..|previous|] == kept;
    assert DealtTo(|kept|, queue, target, layers, Shortfall(kept, target), j, t);
  }

  /** Without a former layering the `j`-th node drawn goes to layer `j % layers`, after `j / layers` others. */
  lemma RandomPlaces(nodes: seq<MixDescriptor>, layers: nat, rng: Rng, j: nat)
    requires layers > 0 && Permutes(rng([], |nodes|), |nodes|) && j < |nodes|
    ensures var t := RandomTopology(nodes, layers, rng);
            && t.Some? && |t.value| == layers && j / layers < |t.value[j % layers]|
            && t.value[j % layers][j / layers] == nodes[rng([], |nodes|)[j]]
  {
    hide Deal, Draw, Select, NoLayers;
    DrawnAsAnswered(rng, |nodes|);
    var p := Draw(rng, [], |nodes|);
    SelectAt(nodes, p, j);
    DealtFromEmpty(layers, Select(nodes, p), j);
  }

  lemma DrawnAsAnswered(rng: Rng, n: nat)
    requires Permutes(rng([], n), n)
    ensures Draw(rng, [], n) == rng([], n)
  {
  }

  lemma SelectAt(nodes: seq<MixDescriptor>, p: seq<nat>, j: nat)
    requires (forall i | 0 <= i < |p| :: p[i] < |nodes|) && j < |p|
    ensures Select(nodes, p)[j] == nodes[p[j]]
  {
  }

  lemma DealtFromEmpty(layers: nat, queue: seq<MixDescriptor>, j: nat)
    requires layers > 0 && j < |queue|
    ensures var t := Deal(NoLayers(layers), queue);
            |t| == layers && j / layers < |t[j % layers]| && t[j % layers][j / layers] == queue[j]
  {
    hide Deal;
    DealAt(NoLayers(layers), queue, j);
  }
}
