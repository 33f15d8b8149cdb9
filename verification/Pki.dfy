/** The records of the directory that the voting state works on. An identity is the 32-byte hash of an
    identity key, read big-endian: Go compares hashes as strings of equal length, which is the order of
    these numbers. */
module Pki {
  import opened Prelude

  type Id = nat

  /** What two descriptors of one node may differ in is `rest`; `id` is the hash of the identity key. */
  datatype MixDescriptor = MixDescriptor(id: Id, name: string, isGateway: bool, isService: bool, rest: Bytes)

  datatype ReplicaDescriptor = ReplicaDescriptor(id: Id, name: string, rest: Bytes)

  type Layering = seq<seq<MixDescriptor>>

  /** The rate parameters, in the order in which a vote carries them. */
  type Parameters = seq<real>

  datatype Document = Document(
    epoch: nat,
    genesisEpoch: nat,
    parameters: Parameters,
    nodesPerLayer: nat, // lambdaG is a function of this number and the parameters
    topology: Layering,
    gateways: seq<MixDescriptor>,
    services: seq<MixDescriptor>,
    replicas: seq<ReplicaDescriptor>,
    srv: Bytes,
    priorSrv: seq<Bytes>,
    geometry: Bytes,
    scheme: string,
    version: string,
    commits: map<Id, Bytes>,
    openings: map<Id, Bytes>, // the shared-random values that open the commits
    signatures: set<Id>)

  predicate IsGateway(d: MixDescriptor) {
    d.isGateway
  }

  predicate IsServiceNode(d: MixDescriptor) {
    !d.isGateway && d.isService
  }

  predicate IsMix(d: MixDescriptor) {
    !d.isGateway && !d.isService
  }

  function Filter(ds: seq<MixDescriptor>, keep: MixDescriptor -> bool): seq<MixDescriptor> {
    if ds == [] then []
    else
      var d := ds[|ds| - 1];
      Filter(ds[..|ds| - 1], keep) + if keep(d) then [d] else []
  }

  function Flat(t: Layering): seq<MixDescriptor> {
    if t == [] then [] else t[0] + Flat(t[1..])
  }

  ghost function Ids(s: seq<MixDescriptor>): set<Id> {
    set d | d in s :: d.id
  }

  /** No two entries of `s` share an identity (see `UniqueMeans`). */
  ghost predicate Unique(s: seq<MixDescriptor>) {
    |Ids(s)| == |s|
  }

  // --- flattening

  lemma {:induction false} FlatAppend(a: Layering, b: Layering)
    ensures Flat(a + b) == Flat(a) + Flat(b)
  {
    if a == [] {
      assert a + b == b;
    } else {
      assert (a + b)[1..] == a[1..] + b;
      FlatAppend(a[1..], b);
    }
  }

  lemma FlatCons(layer: seq<MixDescriptor>, t: Layering)
    ensures Flat([layer] + t) == layer + Flat(t)
  {
    assert ([layer] + t)[1..] == t;
  }

  /** Appending to one layer adds exactly that node. */
  lemma FlatExtend(t: Layering, i: nat, d: MixDescriptor)
    requires i < |t|
    ensures multiset(Flat(t[i := t[i] + [d]])) == multiset(Flat(t)) + multiset{d}
  {
    var u := t[i := t[i] + [d]];
    assert t == t[..i] + ([t[i]] + t[i + 1..]) && u == t[..i] + ([u[i]] + t[i + 1..]);
    FlatAppend(t[..i], [t[i]] + t[i + 1..]);
    FlatAppend(t[..i], [u[i]] + t[i + 1..]);
    assert ([t[i]] + t[i + 1..])[1..] == t[i + 1..] == ([u[i]] + t[i + 1..])[1..];
  }

  /** `Flat` lists exactly the members of the layers. */
  lemma {:induction false} FlatMember(t: Layering, d: MixDescriptor)
    ensures d in Flat(t) <==> exists i :: 0 <= i < |t| && d in t[i]
  {
    if t != [] {
      FlatMember(t[1..], d);
      if exists i :: 0 <= i < |t| && d in t[i] {
        var i :| 0 <= i < |t| && d in t[i];
        assert i > 0 ==> d in t[1..][i - 1];
      }
      if d in Flat(t[1..]) {
        var i :| 0 <= i < |t[1..]| && d in t[1..][i];
        assert d in t[i + 1];
      }
    }
  }

  // --- identities

  lemma IdsAppend(a: seq<MixDescriptor>, b: seq<MixDescriptor>)
    ensures Ids(a + b) == Ids(a) + Ids(b)
  {
    assert forall d :: d in a + b <==> d in a || d in b;
  }

  lemma IdsOne(d: MixDescriptor)
    ensures Ids([d]) == {d.id} && Unique([d])
  {
  }

  lemma {:induction false} FewerIds(s: seq<MixDescriptor>)
    ensures |Ids(s)| <= |s|
  {
    if s == [] {
      assert Ids(s) == {};
    } else {
      FewerIds(s[1..]);
      IdsAppend([s[0]], s[1..]);
      IdsOne(s[0]);
      assert s == [s[0]] + s[1..];
    }
  }

  /** A concatenation is unique exactly if its parts are and have no identity in common. */
  lemma UniqueAppend(a: seq<MixDescriptor>, b: seq<MixDescriptor>)
    ensures Unique(a + b) <==> Unique(a) && Unique(b) && Ids(a) !! Ids(b)
  {
    IdsAppend(a, b);
    FewerIds(a);
    FewerIds(b);
    UnionSize(Ids(a), Ids(b));
  }

  lemma UnionSize(a: set<Id>, b: set<Id>)
    ensures |a + b| + |a * b| == |a| + |b|
    ensures |a * b| == 0 <==> a !! b
  {
    assert a + b == a + (b - a);
    assert b == (b - a) + a * b;
  }

  lemma UniqueMeans(s: seq<MixDescriptor>)
    ensures Unique(s) <==> forall i, j | 0 <= i < j < |s| :: s[i].id != s[j].id
  {
    if s != [] {
      var front, last := s[..|s| - 1], s[|s| - 1];
      assert s == front + [last];
      UniqueMeans(front);
      UniqueAppend(front, [last]);
      IdsOne(last);
      if last.id in Ids(front) {
        var d :| d in front && d.id == last.id;
        var i :| 0 <= i < |front| && front[i] == d;
        assert s[i].id == s[|s| - 1].id;
      }
    }
  }

  /** Being unique is a property of the bag of nodes, not of their order. */
  lemma UniqueOfBag(s: seq<MixDescriptor>, t: seq<MixDescriptor>)
    requires multiset(s) == multiset(t)
    ensures Ids(s) == Ids(t) && |s| == |t| && (Unique(s) <==> Unique(t))
  {
    assert forall d :: d in s <==> d in multiset(s);
    assert forall d :: d in t <==> d in multiset(t);
    assert |s| == |multiset(s)| && |t| == |multiset(t)|;
  }

  /** In a unique list an identity belongs to one member. */
  lemma UniqueMember(s: seq<MixDescriptor>, d: MixDescriptor, e: MixDescriptor)
    requires Unique(s) && d in s && e in s && d.id == e.id
    ensures d == e
  {
    UniqueMeans(s);
  }

  lemma SameBag(a: seq<MixDescriptor>, b: seq<MixDescriptor>)
    requires Unique(a) && Unique(b) && forall d :: d in a <==> d in b
    ensures multiset(a) == multiset(b)
  {
    forall d ensures multiset(a)[d] == multiset(b)[d] {
      AtMostOnce(a, d);
      AtMostOnce(b, d);
    }
  }

  lemma {:induction false} AtMostOnce(s: seq<MixDescriptor>, d: MixDescriptor)
    requires Unique(s)
    ensures multiset(s)[d] == if d in s then 1 else 0
  {
    if s != [] {
      var front, last := s[..|s| - 1], s[|s| - 1];
      assert s == front + [last];
      UniqueAppend(front, [last]);
      IdsOne(last);
      AtMostOnce(front, d);
      assert d in front ==> d.id in Ids(front);
    }
  }

  // --- filtering

  lemma {:induction false} FilterCount(ds: seq<MixDescriptor>, keep: MixDescriptor -> bool, d: MixDescriptor)
    ensures multiset(Filter(ds, keep))[d] == if keep(d) then multiset(ds)[d] else 0
  {
    if ds != [] {
      FilterCount(ds[..|ds| - 1], keep, d);
      assert ds == ds[..|ds| - 1] + [ds[|ds| - 1]];
    }
  }

  /** A filtered list depends, up to its order, on the bag of its entries. */
  lemma FilterBag(a: seq<MixDescriptor>, b: seq<MixDescriptor>, keep: MixDescriptor -> bool)
    requires multiset(a) == multiset(b)
    ensures multiset(Filter(a, keep)) == multiset(Filter(b, keep))
  {
    forall d ensures multiset(Filter(a, keep))[d] == multiset(Filter(b, keep))[d] {
      FilterCount(a, keep, d);
      FilterCount(b, keep, d);
    }
  }

  lemma FilterMember(ds: seq<MixDescriptor>, keep: MixDescriptor -> bool, d: MixDescriptor)
    ensures d in Filter(ds, keep) <==> d in ds && keep(d)
  {
    FilterCount(ds, keep, d);
    assert d in Filter(ds, keep) <==> d in multiset(Filter(ds, keep));
    assert d in ds <==> d in multiset(ds);
  }

  lemma {:induction false} FilterUnique(ds: seq<MixDescriptor>, keep: MixDescriptor -> bool)
    requires Unique(ds)
    ensures Unique(Filter(ds, keep)) && Ids(Filter(ds, keep)) <= Ids(ds)
  {
    if ds != [] {
      var front, last := ds[..|ds| - 1], ds[|ds| - 1];
      assert ds == front + [last];
      FilterSnoc(front, Filter(front, keep), last);
      UniqueAppend(front, [last]);
      FilterUnique(front, keep);
    }
  }

  lemma FilterSnoc(front: seq<MixDescriptor>, part: seq<MixDescriptor>, last: MixDescriptor)
    ensures Ids(part) <= Ids(front)
            ==> Ids(part + [last]) <= Ids(front + [last]) && Ids(part + []) <= Ids(front + [last])
    ensures Ids(part) <= Ids(front) && Unique(part) && Unique(front + [last])
            ==> Unique(part + [last]) && Unique(part + [])
  {
    UniqueAppend(front, [last]);
    UniqueAppend(part, [last]);
    IdsAppend(front, [last]);
    IdsAppend(part, [last]);
    assert part + [] == part;
  }
}
