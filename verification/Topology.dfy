/** The two topology generators. Each method runs the generator's loops; the functions say which layering
    those loops compute, with `None` for a Go run-time panic. */
module Topology {
  import opened Prelude
  import opened Pki

  /** A deterministic random reader: which permutation it hands out for a length depends only on the
      lengths it was asked for before. Nothing else is assumed about it. */
  type Rng = (seq<nat>, nat) -> seq<nat>

  /** `p` lists every position below `n` once. */
  predicate IsPermutation(p: seq<nat>, n: nat) {
    |p| == n && Elements(p) == Below(n)
  }

  lemma InRange(p: seq<nat>, n: nat)
    requires IsPermutation(p, n)
    ensures forall i | 0 <= i < |p| :: p[i] < n
  {
    forall i | 0 <= i < |p| ensures p[i] < n { assert p[i] in Elements(p); }
  }

  function Identity(n: nat): (p: seq<nat>)
    ensures IsPermutation(p, n)
  {
    if n == 0 then []
    else
      var p := Identity(n - 1);
      assert Elements(p + [n - 1]) == Elements(p) + {n - 1};
      assert Below(n) == Below(n - 1) + {n - 1};
      p + [n - 1]
  }

  /** `rng.Perm(n)`, after the lengths in `history` were drawn; a reader can only answer with a permutation. */
  function Draw(rng: Rng, history: seq<nat>, n: nat): (p: seq<nat>)
    ensures IsPermutation(p, n) && forall i | 0 <= i < |p| :: p[i] < n
  {
    var p := if IsPermutation(rng(history, n), n) then rng(history, n) else Identity(n);
    InRange(p, n);
    p
  }

  /** The map from identity to descriptor; of two descriptors with one identity the later one stays. */
  function NodeMap(nodes: seq<MixDescriptor>): map<Id, MixDescriptor> {
    if nodes == [] then map[]
    else var last := nodes[|nodes| - 1]; NodeMap(nodes[..|nodes| - 1])[last.id := last]
  }

  /** The nodes at the given positions. */
  function Select(nodes: seq<MixDescriptor>, order: seq<nat>): (s: seq<MixDescriptor>)
    requires forall i | 0 <= i < |order| :: order[i] < |nodes|
    ensures |s| == |order|
  {
    seq(|order|, i requires 0 <= i < |order| => nodes[order[i]])
  }

  /** One layer of the first pass: in the drawn order, nodes still pending stay, up to the target. */
  function KeepLayer(former: seq<MixDescriptor>, order: seq<nat>, pending: map<Id, MixDescriptor>,
                     kept: seq<MixDescriptor>, target: nat): (seq<MixDescriptor>, map<Id, MixDescriptor>)
    requires forall i | 0 <= i < |order| :: order[i] < |former|
  {
    if order == [] || |kept| >= target then (kept, pending)
    else
      var id := former[order[0]].id;
      if id in pending then KeepLayer(former, order[1..], pending - {id}, kept + [pending[id]], target)
      else KeepLayer(former, order[1..], pending, kept, target)
  }

  /** The first pass over all previous layers. */
  ghost function KeepLayers(previous: Layering, history: seq<nat>, rng: Rng, pending: map<Id, MixDescriptor>,
                            target: nat): (r: (Layering, map<Id, MixDescriptor>))
    ensures |r.0| == |previous|
  {
    if previous == [] then ([], pending)
    else
      var n := |previous[0]|;
      var first := KeepLayer(previous[0], Draw(rng, history, n), pending, [], target);
      var others := KeepLayers(previous[1..], history + [n], rng, first.1, target);
      ([first.0] + others.0, others.1)
  }

  predicate Sorted(s: seq<MixDescriptor>) {
    |s| > 1 ==> s[0].id <= s[1].id && Sorted(s[1..])
  }

  ghost function Least(s: set<nat>): (k: nat)
    requires s != {}
    ensures k in s && forall i | i in s :: k <= i
  {
    var x :| x in s;
    if s == {x} then x
    else
      var y := Least(s - {x});
      assert forall i | i in s :: i == x || i in s - {x};
      if x <= y then x else y
  }

  /** The pending nodes in increasing order of identity. */
  ghost function InIdOrder(m: map<Id, MixDescriptor>): seq<MixDescriptor>
    decreases m.Keys
  {
    if m == map[] then []
    else
      var k := Least(m.Keys);
      assert k in m.Keys && (m - {k}).Keys == m.Keys - {k};
      [m[k]] + InIdOrder(m - {k})
  }

  /** The second pass: short layers take pending nodes from the queue, `None` if it runs out. */
  function FillLayers(kept: Layering, queue: seq<MixDescriptor>, target: nat): (r: Option<(Layering,
                      seq<MixDescriptor>)>)
    ensures r.Some? ==> |r.value.0| == |kept|
    decreases |kept|, if kept == [] then 0 else target - |kept[0]|
  {
    if kept == [] then Some(([], queue))
    else if |kept[0]| < target then
      if queue == [] then None
      else FillLayers([kept[0] + [queue[0]]] + kept[1..], queue[1..], target)
    else
      match FillLayers(kept[1..], queue, target)
      case None => None
      case Some(r) => Some(([kept[0]] + r.0, r.1))
  }

  /** The last pass: the rest of the queue goes to the layers in turn, beginning with layer 0. */
  function Deal(t: Layering, queue: seq<MixDescriptor>): (r: Layering)
    requires t != []
    ensures |r| == |t|
  {
    if queue == [] then t
    else
      var n := |queue| - 1;
      var r := Deal(t, queue[..n]);
      r[n % |t| := r[n % |t|] + [queue[n]]]
  }

  /** The order in which pending nodes are handed out. */
  ghost function Queue(pending: map<Id, MixDescriptor>, history: seq<nat>, rng: Rng): seq<MixDescriptor>
  {
    var sorted := InIdOrder(pending);
    Select(sorted, Draw(rng, history, |sorted|))
  }

  function Lengths(t: Layering): seq<nat> {
    seq(|t|, i requires 0 <= i < |t| => |t[i]|)
  }

  function NoLayers(n: nat): (t: Layering)
    ensures |t| == n
  {
    seq(n, _ => [])
  }

  /** The layering made from a previous one, or `None` where the generator panics. */
  ghost function NextTopology(nodes: seq<MixDescriptor>, previous: Layering, layers: nat, rng: Rng): Option<Layering>
  {
    if layers == 0 || |previous| > layers then None
    else NextWithTarget(nodes, previous, layers, |nodes| / layers, rng)
  }

  ghost function NextWithTarget(nodes: seq<MixDescriptor>, previous: Layering, layers: nat, target: nat,
                                rng: Rng): Option<Layering>
    requires 0 < layers && |previous| <= layers
  {
    var kept := KeepLayers(previous, [], rng, NodeMap(nodes), target);
    Place(kept.0, Queue(kept.1, Lengths(previous), rng), target, layers)
  }

  /** The second and the last pass. */
  function Place(kept: Layering, queue: seq<MixDescriptor>, target: nat, layers: nat): Option<Layering>
    requires 0 < layers && |kept| <= layers
  {
    match FillLayers(kept, queue, target)
    case None => None
    case Some(r) => Some(Deal(r.0 + NoLayers(layers - |kept|), r.1))
  }

  /** The layering made without a previous one. */
  ghost function RandomTopology(nodes: seq<MixDescriptor>, layers: nat, rng: Rng): Option<Layering>
  {
    if nodes == [] then Some(NoLayers(layers))
    else if layers == 0 then None
    else
      Some(Deal(NoLayers(layers), Select(nodes, Draw(rng, [], |nodes|))))
  }

  // --- sorting

  method SortNodesByPublicKey(nodes: seq<MixDescriptor>) returns (sorted: seq<MixDescriptor>)
    ensures Sorted(sorted) && multiset(sorted) == multiset(nodes)
  {
    sorted := [];
    for i := 0 to |nodes|
      invariant Sorted(sorted) && multiset(sorted) == multiset(nodes[..i])
    {
      var k := |sorted|;
      while k > 0 && nodes[i].id < sorted[k - 1].id
        invariant 0 <= k <= |sorted|
        invariant k < |sorted| ==> nodes[i].id < sorted[k].id
      {
        k := k - 1;
      }
      InsertKeepsOrder(sorted, k, nodes[i]);
      assert nodes[..i + 1] == nodes[..i] + [nodes[i]];
      sorted := Insert(sorted, k, nodes[i]);
    }
    assert nodes[..|nodes|] == nodes;
  }

  lemma {:induction false} SortedConcat(a: seq<MixDescriptor>, b: seq<MixDescriptor>)
    ensures Sorted(a + b) <==> Sorted(a) && Sorted(b) && (a != [] && b != [] ==> a[|a| - 1].id <= b[0].id)
  {
    if a == [] {
      assert a + b == b;
    } else {
      assert (a + b)[1..] == a[1..] + b;
      SortedConcat(a[1..], b);
    }
  }

  function Insert(s: seq<MixDescriptor>, k: nat, d: MixDescriptor): (t: seq<MixDescriptor>)
    requires k <= |s|
    ensures multiset(t) == multiset(s) + multiset{d}
  {
    assert s == s[..k] + s[k..];
    s[..k] + ([d] + s[k..])
  }

  lemma InsertKeepsOrder(s: seq<MixDescriptor>, k: nat, d: MixDescriptor)
    requires Sorted(s) && k <= |s|
    requires (k > 0 ==> s[k - 1].id <= d.id) && (k < |s| ==> d.id <= s[k].id)
    ensures Sorted(Insert(s, k, d))
  {
    assert s == s[..k] + s[k..];
    SortedConcat(s[..k], s[k..]);
    SortedConcat([d], s[k..]);
    SortedConcat(s[..k], [d] + s[k..]);
  }

  lemma {:induction false} LeastComesFirst(s: seq<MixDescriptor>, d: MixDescriptor)
    requires Sorted(s) && d in s
    ensures s[0].id <= d.id
  {
    if d != s[0] {
      LeastComesFirst(s[1..], d);
    }
  }

  /** Whatever sorting algorithm runs, distinct identities leave one possible result. */
  lemma {:induction false} SortedIsUnique(s: seq<MixDescriptor>, t: seq<MixDescriptor>)
    requires Sorted(s) && Sorted(t) && Unique(s) && multiset(s) == multiset(t)
    ensures s == t
  {
    UniqueOfBag(s, t);
    if s != [] {
      SameHead(s, t);
      TailBag(s);
      TailBag(t);
      UniqueAppend([s[0]], s[1..]);
      SortedIsUnique(s[1..], t[1..]);
    }
  }

  lemma SameHead(s: seq<MixDescriptor>, t: seq<MixDescriptor>)
    requires s != [] && t != [] && Sorted(s) && Sorted(t) && Unique(s) && multiset(s) == multiset(t)
    ensures s[0] == t[0]
  {
    assert s[0] in multiset(t) && t[0] in multiset(s);
    LeastComesFirst(s, t[0]);
    LeastComesFirst(t, s[0]);
    UniqueMember(s, s[0], t[0]);
  }

  lemma TailBag(s: seq<MixDescriptor>)
    requires s != []
    ensures s == [s[0]] + s[1..] && multiset(s[1..]) == multiset(s) - multiset{s[0]}
  {
  }

  // --- keyed maps

  /** Every entry is stored under its own identity. */
  ghost predicate Keyed(m: map<Id, MixDescriptor>) {
    forall id | id in m :: m[id].id == id
  }

  ghost function Bag(m: map<Id, MixDescriptor>): multiset<MixDescriptor> {
    multiset(m.Values)
  }

  lemma BagRemove(m: map<Id, MixDescriptor>, id: Id)
    requires Keyed(m) && id in m
    ensures Keyed(m - {id}) && Bag(m) == Bag(m - {id}) + multiset{m[id]} && |m - {id}| == |m| - 1
  {
    var rest := m - {id};
    forall d ensures d in m.Values <==> d in rest.Values || d == m[id] {
      if d in m.Values && d != m[id] {
        var k :| k in m && m[k] == d;
        assert k in rest && rest[k] == d;
      }
      if d in rest.Values {
        var k :| k in rest && rest[k] == d;
        assert k in m && m[k] == d;
      }
      assert id in m.Keys;
    }
    assert m.Values == rest.Values + {m[id]};
    assert rest.Keys == m.Keys - {id};
  }

  lemma {:induction false} InIdOrderSorted(m: map<Id, MixDescriptor>)
    requires Keyed(m)
    ensures var s := InIdOrder(m); Sorted(s) && Unique(s) && Ids(s) == m.Keys
    decreases m.Keys
  {
    if m != map[] {
      var k := Least(m.Keys);
      var rest := m - {k};
      assert k in m.Keys && rest.Keys == m.Keys - {k};
      InIdOrderSorted(rest);
      ConsFacts(m[k], InIdOrder(rest));
    }
  }

  lemma {:induction false} InIdOrderBag(m: map<Id, MixDescriptor>)
    requires Keyed(m)
    ensures var s := InIdOrder(m); multiset(s) == Bag(m) && |s| == |m|
    decreases m.Keys
  {
    if m == map[] {
      assert m.Values == {};
    } else {
      var k := Least(m.Keys);
      var rest := m - {k};
      assert k in m.Keys && rest.Keys == m.Keys - {k};
      BagRemove(m, k);
      InIdOrderBag(rest);
      assert InIdOrder(m) == [m[k]] + InIdOrder(rest);
    }
  }

  lemma ConsFacts(d: MixDescriptor, s: seq<MixDescriptor>)
    requires Sorted(s) && Unique(s) && forall i | i in Ids(s) :: d.id < i
    ensures Sorted([d] + s) && Unique([d] + s) && Ids([d] + s) == {d.id} + Ids(s)
  {
    IdsOne(d);
    IdsAppend([d], s);
    UniqueAppend([d], s);
    SortedConcat([d], s);
    assert s != [] ==> s[0].id in Ids(s);
  }

  lemma {:induction false} NodeMapKeyed(nodes: seq<MixDescriptor>)
    ensures var m := NodeMap(nodes); Keyed(m) && m.Keys == Ids(nodes)
  {
    if nodes != [] {
      var front, last := nodes[..|nodes| - 1], nodes[|nodes| - 1];
      assert nodes == front + [last];
      NodeMapKeyed(front);
      IdsAppend(front, [last]);
      IdsOne(last);
    }
  }

  lemma {:induction false} NodeMapBag(nodes: seq<MixDescriptor>)
    requires Unique(nodes)
    ensures Bag(NodeMap(nodes)) == multiset(nodes)
  {
    var m := NodeMap(nodes);
    if nodes == [] {
      assert m.Values == {};
    } else {
      var front, last := nodes[..|nodes| - 1], nodes[|nodes| - 1];
      assert nodes == front + [last];
      UniqueAppend(front, [last]);
      IdsOne(last);
      NodeMapBag(front);
      NodeMapKeyed(front);
      NodeMapKeyed(nodes);
      assert m - {last.id} == NodeMap(front);
      BagRemove(m, last.id);
    }
  }

  // --- the generators

  method Flatten(pending: map<Id, MixDescriptor>) returns (nodes: seq<MixDescriptor>)
    requires Keyed(pending)
    ensures multiset(nodes) == Bag(pending)
  {
    nodes := [];
    var rest := pending;
    assert rest == map[] ==> rest.Values == {};
    while rest != map[]
      invariant Keyed(rest) && multiset(nodes) + Bag(rest) == Bag(pending)
      decreases |rest|
    {
      var id :| id in rest;
      BagRemove(rest, id);
      nodes := nodes + [rest[id]];
      rest := rest - {id};
    }
    assert rest.Values == {};
  }

  ghost function Prepend(front: Layering, r: Option<(Layering, seq<MixDescriptor>)>): Option<(Layering,
                         seq<MixDescriptor>)> {
    match r
    case None => None
    case Some(p) => Some((front + p.0, p.1))
  }

  method IndexNodes(nodeList: seq<MixDescriptor>) returns (nodeMap: map<Id, MixDescriptor>)
    ensures nodeMap == NodeMap(nodeList)
  {
    nodeMap := map[];
    for i := 0 to |nodeList|
      invariant nodeMap == NodeMap(nodeList[..i])
    {
      assert nodeList[..i + 1][..i] == nodeList[..i];
      nodeMap := nodeMap[nodeList[i].id := nodeList[i]];
    }
    assert nodeList[..|nodeList|] == nodeList;
  }

  /** One layer of the first pass. */
  method Keep(former: seq<MixDescriptor>, order: seq<nat>, pending: map<Id, MixDescriptor>, target: nat)
    returns (kept: seq<MixDescriptor>, nodeMap: map<Id, MixDescriptor>)
    requires (forall i | 0 <= i < |order| :: order[i] < |former|) && Keyed(pending)
    ensures (kept, nodeMap) == KeepLayer(former, order, pending, [], target)
    ensures Keyed(nodeMap)
  {
    kept, nodeMap := [], pending;
    for k := 0 to |order|
      invariant Keyed(nodeMap)
      invariant KeepLayer(former, order, pending, [], target) == KeepLayer(former, order[k..], nodeMap, kept, target)
    {
      if |kept| >= target { break; }
      var id := former[order[k]].id;
      assert order[k..][0] == order[k] && order[k..][1..] == order[k + 1..];
      if id in nodeMap {
        kept := kept + [nodeMap[id]];
        nodeMap := nodeMap - {id};
      }
    }
  }

  /** What the first pass still yields when `front` is done and `todo` is left. */
  ghost function KeepOn(front: Layering, todo: Layering, history: seq<nat>, rng: Rng, pending: map<Id, MixDescriptor>,
                        target: nat): (Layering, map<Id, MixDescriptor>)
  {
    var others := KeepLayers(todo, history, rng, pending, target);
    (front + others.0, others.1)
  }

  lemma KeepBegins(previous: Layering, rng: Rng, pending: map<Id, MixDescriptor>, target: nat)
    ensures KeepOn([], previous, [], rng, pending, target) == KeepLayers(previous, [], rng, pending, target)
  {
    var all := KeepLayers(previous, [], rng, pending, target);
    assert [] + all.0 == all.0;
  }

  lemma KeepEnds(front: Layering, history: seq<nat>, rng: Rng, pending: map<Id, MixDescriptor>, target: nat)
    ensures KeepOn(front, [], history, rng, pending, target) == (front, pending)
  {
    assert front + [] == front;
  }

  lemma KeepOneMore(front: Layering, todo: Layering, history: seq<nat>, rng: Rng, pending: map<Id, MixDescriptor>,
                    target: nat)
    requires todo != []
    ensures var k := KeepLayer(todo[0], Draw(rng, history, |todo[0]|), pending, [], target);
            KeepOn(front, todo, history, rng, pending, target)
            == KeepOn(front + [k.0], todo[1..], history + [|todo[0]|], rng, k.1, target)
  {
    var k := KeepLayer(todo[0], Draw(rng, history, |todo[0]|), pending, [], target);
    var others := KeepLayers(todo[1..], history + [|todo[0]|], rng, k.1, target);
    assert front + ([k.0] + others.0) == front + [k.0] + others.0;
  }

  /** The first pass; `false` for an index out of range. Layers not yet reached are empty. */
  method KeepSurvivors(previous: Layering, layers: nat, rng: Rng, pending: map<Id, MixDescriptor>, target: nat)
    returns (inRange: bool, topology: Layering, nodeMap: map<Id, MixDescriptor>, history: seq<nat>)
    requires Keyed(pending)
    ensures |previous| <= layers ==> inRange
    ensures inRange ==> |topology| == layers && history == Lengths(previous) && Keyed(nodeMap)
    ensures inRange && |previous| <= layers ==>
      var all := KeepLayers(previous, [], rng, pending, target);
      topology == all.0 + NoLayers(layers - |previous|) && nodeMap == all.1
  {
    nodeMap, history := pending, [];
    var reached: Layering := [];
    ghost var all := KeepLayers(previous, [], rng, pending, target);
    KeepBegins(previous, rng, pending, target);
    hide KeepLayer, KeepLayers, KeepOn, Draw;
    for layer := 0 to |previous|
      invariant |reached| == layer == |history| && Keyed(nodeMap)
      invariant forall l | 0 <= l < layer :: history[l] == |previous[l]|
      invariant all == KeepOn(reached, previous[layer..], history, rng, nodeMap, target)
    {
      var former := previous[layer];
      KeepOneMore(reached, previous[layer..], history, rng, nodeMap, target);
      var order := Draw(rng, history, |former|);
      if former != [] && layer >= layers { return false, [], nodeMap, history; } // topology[layer] is out of range
      var kept;
      kept, nodeMap := Keep(former, order, nodeMap, target);
      reached := reached + [kept];
      assert previous[layer..][1..] == previous[layer + 1..];
      history := history + [|former|];
    }
    KeepEnds(reached, history, rng, nodeMap, target);
    topology := if |previous| <= layers then reached + NoLayers(layers - |previous|) else reached[..layers];
    return true, topology, nodeMap, history;
  }

  /** The second pass; `false` for an index out of range. */
  method Fill(kept: Layering, count: nat, queue: seq<MixDescriptor>, target: nat)
    returns (inRange: bool, topology: Layering, idx: nat)
    ensures count <= |kept| ==>
      var filled := FillLayers(kept[..count], queue, target);
      && inRange == filled.Some?
      && (inRange ==> idx <= |queue| && topology == filled.value.0 + kept[count..] && queue[idx..] == filled.value.1)
    ensures count > |kept| ==> !inRange
  {
    topology, idx := kept, 0;
    assert queue[0..] == queue && (count <= |kept| ==> kept[0..count] == kept[..count]);
    assert forall t: Layering :: [] + t == t;
    for layer := 0 to count
      invariant |topology| == |kept| && idx <= |queue| && layer <= |kept|
      invariant topology[layer..] == kept[layer..]
      invariant count <= |kept| ==>
        FillLayers(kept[..count], queue, target)
        == Prepend(topology[..layer], FillLayers(topology[layer..count], queue[idx..], target))
    {
      if layer >= |topology| { return false, topology, idx; } // topology[layer] is out of range
      ghost var before := topology;
      while |topology[layer]| < target
        invariant |topology| == |kept| && idx <= |queue| && topology == before[layer := topology[layer]]
        invariant count <= |kept| ==>
          FillLayers(kept[..count], queue, target)
          == Prepend(topology[..layer], FillLayers(topology[layer..count], queue[idx..], target))
        decreases target - |topology[layer]|
      {
        if idx >= |queue| { return false, topology, idx; } // assignIndexes[idx] is out of range
        ghost var short := topology;
        topology := topology[layer := topology[layer] + [queue[idx]]];
        assert queue[idx..][0] == queue[idx] && queue[idx..][1..] == queue[idx + 1..];
        if count <= |kept| {
          assert topology[layer..count] == [short[layer] + [queue[idx]]] + short[layer..count][1..];
          assert topology[..layer] == short[..layer];
        }
        idx := idx + 1;
      }
      assert topology[layer + 1..] == before[layer..][1..] == kept[layer + 1..];
      if count <= |kept| {
        assert topology[layer..count][1..] == topology[layer + 1..count];
        assert topology[..layer + 1] == topology[..layer] + [topology[layer]];
        PrependTwice(topology[..layer], topology[layer], FillLayers(topology[layer + 1..count], queue[idx..], target));
      }
    }
    assert topology[count..count] == [];
    assert topology == topology[..count] + kept[count..];
    return true, topology, idx;
  }

  /** Dealing one more node. */
  lemma DealNext(t: Layering, queue: seq<MixDescriptor>, k: nat)
    requires t != [] && k < |queue|
    ensures var (i, r) := (k % |t|, Deal(t, queue[..k])); Deal(t, queue[..k + 1]) == r[i := r[i] + [queue[k]]]
  {
    assert queue[..k + 1][..k] == queue[..k];
  }

  /** The last pass. */
  method DealOut(start: Layering, queue: seq<MixDescriptor>, from: nat) returns (topology: Layering)
    requires start != [] && from <= |queue|
    ensures topology == Deal(start, queue[from..])
  {
    topology := start;
    ghost var rest := queue[from..];
    assert Deal(start, rest[..0]) == start;
    hide Deal;
    var layer, idx := 0, from;
    while idx < |queue|
      invariant from <= idx <= |queue| && |topology| == |start|
      invariant layer == (idx - from) % |start|
      invariant topology == Deal(start, rest[..idx - from])
    {
      topology := topology[layer := topology[layer] + [queue[idx]]];
      DealNext(start, rest, idx - from);
      NextRemainder(idx - from, |start|);
      layer := (layer + 1) % |topology|;
      idx := idx + 1;
    }
    assert rest[..idx - from] == rest;
  }

  /** The nodes pending assignment, in an order all authorities agree on. */
  method PendingInOrder(pending: map<Id, MixDescriptor>) returns (toAssign: seq<MixDescriptor>)
    requires Keyed(pending)
    ensures toAssign == InIdOrder(pending)
  {
    toAssign := Flatten(pending);
    toAssign := SortNodesByPublicKey(toAssign);
    InIdOrderSorted(pending);
    InIdOrderBag(pending);
    SortedIsUnique(InIdOrder(pending), toAssign);
  }

  method GenerateTopology(nodeList: seq<MixDescriptor>, previous: Layering, layers: nat, rng: Rng)
    returns (result: Option<Layering>)
    ensures result == NextTopology(nodeList, previous, layers, rng)
  {
    var nodeMap := IndexNodes(nodeList);
    NodeMapKeyed(nodeList);
    if layers == 0 { return None; } // integer division by zero
    var target := |nodeList| / layers;

    // Nodes that still exist keep their layer, up to the target size.
    var inRange, topology, pending, history := KeepSurvivors(previous, layers, rng, nodeMap, target);
    if !inRange { return None; }

    hide NodeMap, KeepLayers, FillLayers, Deal, InIdOrder, Draw, Keyed;
    var toAssign := PendingInOrder(pending);
    var assignIndexes := Draw(rng, history, |toAssign|);
    var queue := Select(toAssign, assignIndexes);

    // Layers under the target size are filled from the pending list; the rest goes round in turn.
    var idx;
    ghost var kept := topology;
    inRange, topology, idx := Fill(topology, |previous|, queue, target);
    if !inRange { return None; }
    assert kept[|previous|..] == NoLayers(layers - |previous|);
    topology := DealOut(topology, queue, idx);
    return Some(topology);
  }

  lemma PrependTwice(front: Layering, layer: seq<MixDescriptor>, r: Option<(Layering, seq<MixDescriptor>)>)
    ensures Prepend(front, Prepend([layer], r)) == Prepend(front + [layer], r)
  {
    if r.Some? {
      assert front + ([layer] + r.value.0) == front + [layer] + r.value.0;
    }
  }

  method GenerateRandomTopology(nodes: seq<MixDescriptor>, layers: nat, rng: Rng) returns (result: Option<Layering>)
    ensures result == RandomTopology(nodes, layers, rng)
  {
    var nodeIndexes := Draw(rng, [], |nodes|);
    ghost var queue := Select(nodes, nodeIndexes);
    var topology := NoLayers(layers);
    assert layers > 0 ==> Deal(topology, queue[..0]) == topology;
    hide Deal, Draw, IsPermutation;
    var layer := 0;
    var idx := 0;
    while idx < |nodes|
      invariant idx <= |nodes| && |topology| == layers && (layers == 0 ==> idx == 0) && 0 <= layer
      invariant layers > 0 ==> layer == idx % layers && topology == Deal(NoLayers(layers), queue[..idx])
    {
      if layer >= layers { return None; } // topology[layer] is out of range
      topology := topology[layer := topology[layer] + [nodes[nodeIndexes[idx]]]];
      DealNext(NoLayers(layers), queue, idx);
      NextRemainder(idx, layers);
      layer := (layer + 1) % layers;
      idx := idx + 1;
    }
    assert queue[..|nodes|] == queue;
    return Some(topology);
  }
}
