/** What a tally decides does not depend on the order of any map, and two authorities never decide differently. */
module Quorums {
  import opened Prelude
  import opened Pki
  import opened Topology
  import opened Tally
  import Interleavings
  import Uploads

  /** Two sets of a majority of `all` have a member in common. */
  lemma MajoritiesMeet(a: set<Id>, b: set<Id>, all: set<Id>, verifiers: nat) returns (x: Id)
    requires a <= all && b <= all && |all| <= verifiers && |a| >= Threshold(verifiers) && |b| >= Threshold(verifiers)
    ensures x in a && x in b
  {
    UnionSize(a, b);
    SubsetCardinality(a + b, all);
    if a * b == {} {
      assert false;
    }
    x :| x in a * b;
  }

  // --- counts and supporters

  /** Who lists an entry encoded as `k`. */
  ghost function Supporters<T>(c: Codec<T>, lists: map<Id, seq<T>>, ids: set<Id>, k: Bytes): set<Id>
    requires ids <= lists.Keys
  {
    set id | id in ids && Occurrences(c, lists[id], k) > 0
  }

  lemma {:induction false} BackingIsSupport<T>(c: Codec<T>, lists: map<Id, seq<T>>, ids: set<Id>, k: Bytes)
    requires ids <= lists.Keys && forall id | id in ids :: Occurrences(c, lists[id], k) <= 1
    ensures Backing(c, lists, ids, k) == |Supporters(c, lists, ids, k)|
  {
    if ids == {} {
      assert Supporters(c, lists, ids, k) == {};
    } else {
      var x :| x in ids;
      BackingRemove(c, lists, ids, x, k);
      BackingIsSupport(c, lists, ids - {x}, k);
      var fewer := Supporters(c, lists, ids - {x}, k);
      assert Supporters(c, lists, ids, k) == if Occurrences(c, lists[x], k) > 0 then fewer + {x} else fewer;
    }
  }

  /** An entry that occurs is in the list, and if it can be decoded at all it is decoded as it was. */
  lemma {:induction false} OccursInList<T(!new)>(c: Codec<T>, list: seq<T>, k: Bytes) returns (x: T)
    requires Occurrences(c, list, k) > 0
    ensures x in list && c.encode(x) == Some(k) && (RoundTrips(c) ==> c.decode(k) == Some(x))
  {
    if c.encode(list[|list| - 1]) == Some(k) {
      x := list[|list| - 1];
    } else {
      x := OccursInList(c, list[..|list| - 1], k);
    }
  }

  /** In a list without duplicate identities no encoding occurs twice. */
  lemma {:induction false} OccursOnce(c: Codec<MixDescriptor>, list: seq<MixDescriptor>, k: Bytes)
    requires RoundTrips(c) && Unique(list)
    ensures Occurrences(c, list, k) <= 1
  {
    if list != [] {
      var front, last := list[..|list| - 1], list[|list| - 1];
      assert list == front + [last];
      UniqueAppend(front, [last]);
      IdsOne(last);
      OccursOnce(c, front, k);
      if c.encode(last) == Some(k) && Occurrences(c, front, k) > 0 {
        var d := OccursInList(c, front, k);
        assert false;
      }
    }
  }

  // --- two authorities

  /** Two collections of votes, all from `all`, in which nobody's vote differs. */
  ghost predicate Consistent(va: Votes, vb: Votes, all: set<Id>) {
    va.Keys <= all && vb.Keys <= all && SameVotes(va, vb)
  }

  ghost predicate SameVotes(va: Votes, vb: Votes) {
    forall id | id in va && id in vb :: va[id] == vb[id]
  }

  /** No vote lists an identity twice. */
  ghost predicate ListsOnce(votes: Votes) {
    forall id | id in votes :: Unique(Listed(votes[id]))
  }

  /** The same configuration up to the rosters. */
  ghost predicate SameRules(oa: Office, ob: Office) {
    && oa.verifiers == ob.verifiers && oa.lambdaG == ob.lambdaG
    && oa.mixes == ob.mixes && oa.replicas == ob.replicas && oa.parameters == ob.parameters
  }

  /** Two encodings that reach the threshold, each among its own votes, stand in one vote that both collections have. */
  lemma CommonVote<T>(c: Codec<T>, la: map<Id, seq<T>>, lb: map<Id, seq<T>>, all: set<Id>, verifiers: nat, j: Bytes,
                      k: Bytes)
    returns (x: Id)
    requires la.Keys <= all && lb.Keys <= all && |all| <= verifiers
    requires forall id | id in la :: Occurrences(c, la[id], j) <= 1
    requires forall id | id in lb :: Occurrences(c, lb[id], k) <= 1
    requires Backing(c, la, la.Keys, j) >= Threshold(verifiers) && Backing(c, lb, lb.Keys, k) >= Threshold(verifiers)
    ensures x in la && x in lb && Occurrences(c, la[x], j) > 0 && Occurrences(c, lb[x], k) > 0
  {
    BackingIsSupport(c, la, la.Keys, j);
    BackingIsSupport(c, lb, lb.Keys, k);
    x := MajoritiesMeet(Supporters(c, la, la.Keys, j), Supporters(c, lb, lb.Keys, k), all, verifiers);
  }

  /** Two authorities whose verifiers are the same, whichever votes each of them has received, never prevail with
      different parameters. */
  lemma ParametersAgree(oa: Office, ob: Office, va: Votes, vb: Votes, all: set<Id>, p: Parameters, q: Parameters)
    requires SameRules(oa, ob) && Consistent(va, vb, all) && |all| <= oa.verifiers
    requires Prevailing(oa, va, p) && Prevailing(ob, vb, q)
    ensures p == q
  {
    var c, la, lb := oa.parameters, ParameterLists(oa, va), ParameterLists(ob, vb);
    var j :| Backing(c, la, la.Keys, j) >= Threshold(oa.verifiers) && c.decode(j) == Some(p);
    var k :| Backing(c, lb, lb.Keys, k) >= Threshold(oa.verifiers) && c.decode(k) == Some(q);
    forall id | id in la ensures Occurrences(c, la[id], j) <= 1 { OneEntry(c, ParametersOf(oa, va[id]), j); }
    forall id | id in lb ensures Occurrences(c, lb[id], k) <= 1 { OneEntry(c, ParametersOf(ob, vb[id]), k); }
    var x := CommonVote(c, la, lb, all, oa.verifiers, j, k);
    OneEntry(c, ParametersOf(oa, va[x]), j);
    OneEntry(c, ParametersOf(ob, vb[x]), k);
  }

  lemma OneEntry<T>(c: Codec<T>, x: T, k: Bytes)
    ensures Occurrences(c, [x], k) == if c.encode(x) == Some(k) then 1 else 0
  {
    assert [x][..0] == [];
  }

  /** Nor do they ever elect different descriptors of one node. */
  lemma DescriptorsAgree(oa: Office, ob: Office, va: Votes, vb: Votes, all: set<Id>, d: MixDescriptor,
                         e: MixDescriptor, j: Bytes, k: Bytes)
    requires SameRules(oa, ob) && Consistent(va, vb, all) && |all| <= oa.verifiers
    requires ListsOnce(va) && ListsOnce(vb) && RoundTrips(oa.mixes)
    requires WinsAs(oa, va, j, d) && WinsAs(ob, vb, k, e) && d.id == e.id
    ensures d == e && j == k
  {
    var c, la, lb := oa.mixes, MixLists(oa, va), MixLists(ob, vb);
    forall id | id in la ensures Occurrences(c, la[id], j) <= 1 { ListedOnce(oa, va, id, j); }
    forall id | id in lb ensures Occurrences(c, lb[id], k) <= 1 { ListedOnce(ob, vb, id, k); }
    var x := CommonVote(c, la, lb, all, oa.verifiers, j, k);
    var d' := OccursInList(c, la[x], j);
    var e' := OccursInList(c, lb[x], k);
    assert la[x] == lb[x];
    UniqueMember(Listed(va[x]), d', e');
  }

  /** The encoding `k` wins among the mixes and is decoded as `d`. */
  ghost predicate WinsAs(office: Office, votes: Votes, k: Bytes, d: MixDescriptor) {
    Wins(office.mixes, MixLists(office, votes), Threshold(office.verifiers), office.admits, k)
      && office.mixes.decode(k) == Some(d)
  }

  lemma ListedOnce(office: Office, votes: Votes, id: Id, k: Bytes)
    requires RoundTrips(office.mixes) && id in votes && Unique(Listed(votes[id]))
    ensures Occurrences(office.mixes, MixLists(office, votes)[id], k) <= 1
  {
    if Counted(office, votes[id]) {
      OccursOnce(office.mixes, Listed(votes[id]), k);
    }
  }

  /** An elected descriptor comes from a winning encoding. */
  lemma ElectedWins(office: Office, votes: Votes, list: seq<MixDescriptor>, d: MixDescriptor) returns (k: Bytes)
    requires ElectsMixes(office, votes, list) && d in list
    ensures WinsAs(office, votes, k, d)
  {
    var c, lists, t := office.mixes, MixLists(office, votes), Threshold(office.verifiers);
    var keys :| ElectsBy(c, lists, t, office.admits, list, keys);
    var i :| 0 <= i < |list| && list[i] == d;
    k := keys[i];
    assert k in keys;
  }

  /** What a successful tally promises. */
  ghost predicate IsTally(office: Office, votes: Votes, r: Result) {
    && r.Agreed? && Prevailing(office, votes, r.parameters)
    && ElectsSorted(office, votes, r.nodes) && ElectsReplicas(office, votes, r.replicas)
  }

  lemma NodeWins(office: Office, votes: Votes, nodes: seq<MixDescriptor>, d: MixDescriptor) returns (k: Bytes)
    requires ElectsSorted(office, votes, nodes) && d in nodes
    ensures WinsAs(office, votes, k, d)
  {
    hide ElectsMixes;
    var list :| ElectsMixes(office, votes, list) && multiset(nodes) == multiset(list);
    assert d in multiset(list);
    k := ElectedWins(office, votes, list, d);
  }

  lemma WinnerIsNode(office: Office, votes: Votes, nodes: seq<MixDescriptor>, k: Bytes, d: MixDescriptor)
    requires ElectsSorted(office, votes, nodes) && WinsAs(office, votes, k, d)
    ensures d in nodes
  {
    var list :| ElectsMixes(office, votes, list) && multiset(nodes) == multiset(list);
    WinnerIsElected(office, votes, list, k, d);
    assert d in multiset(list);
  }

  lemma WinnerIsElected(office: Office, votes: Votes, list: seq<MixDescriptor>, k: Bytes, d: MixDescriptor)
    requires ElectsMixes(office, votes, list) && WinsAs(office, votes, k, d)
    ensures d in list
  {
    var c, lists, t := office.mixes, MixLists(office, votes), Threshold(office.verifiers);
    var keys :| ElectsBy(c, lists, t, office.admits, list, keys);
    assert k in keys;
    var i :| 0 <= i < |keys| && keys[i] == k;
    assert list[i] == d;
  }

  /** Quorum intersection: authorities with the same verifiers that received different parts of one assignment of votes
      never succeed with different parameters or with different descriptors of one node. */
  lemma TalliesNeverDisagree(oa: Office, ob: Office, va: Votes, vb: Votes, all: set<Id>, ra: Result, rb: Result)
    requires SameRules(oa, ob) && Consistent(va, vb, all) && |all| <= oa.verifiers
    requires ListsOnce(va) && ListsOnce(vb) && RoundTrips(oa.mixes)
    requires IsTally(oa, va, ra) && IsTally(ob, vb, rb)
    ensures ra.parameters == rb.parameters
    ensures forall d, e | d in ra.nodes && e in rb.nodes && d.id == e.id :: d == e
  {
    hide ElectsSorted, ElectsReplicas, Prevailing, RoundTrips, Consistent, ListsOnce;
    ParametersAgree(oa, ob, va, vb, all, ra.parameters, rb.parameters);
    forall d, e | d in ra.nodes && e in rb.nodes && d.id == e.id ensures d == e {
      var j := NodeWins(oa, va, ra.nodes, d);
      var k := NodeWins(ob, vb, rb.nodes, e);
      DescriptorsAgree(oa, ob, va, vb, all, d, e, j, k);
    }
  }

  /** The same for whole runs of two authorities: whatever messages each of them receives in whatever order, if nobody
      votes differently towards them, their tallies agree. */
  lemma ReceivedTalliesNeverDisagree(o: Uploads.Office, eventsA: seq<Interleavings.Event>,
                                     eventsB: seq<Interleavings.Event>, e: nat,
                                     oa: Office, ob: Office, ra: Result, rb: Result)
    requires SameRules(oa, ob) && RoundTrips(oa.mixes) && |o.authorized| <= oa.verifiers
    requires SameVotes(ReceivedVotes(o, eventsA, e), ReceivedVotes(o, eventsB, e))
    requires ListsOnce(ReceivedVotes(o, eventsA, e)) && ListsOnce(ReceivedVotes(o, eventsB, e))
    requires IsTally(oa, ReceivedVotes(o, eventsA, e), ra) && IsTally(ob, ReceivedVotes(o, eventsB, e), rb)
    ensures ra.parameters == rb.parameters
    ensures forall c, d | c in ra.nodes && d in rb.nodes && c.id == d.id :: c == d
  {
    hide IsTally, SameRules, RoundTrips, ReceivedVotes, SameVotes, ListsOnce;
    ReceivedFromAuthorized(o, eventsA, e);
    ReceivedFromAuthorized(o, eventsB, e);
    TalliesNeverDisagree(oa, ob, ReceivedVotes(o, eventsA, e), ReceivedVotes(o, eventsB, e), o.authorized, ra, rb);
  }

  lemma ReceivedFromAuthorized(o: Uploads.Office, events: seq<Interleavings.Event>, e: nat)
    ensures ReceivedVotes(o, events, e).Keys <= o.authorized
  {
    Interleavings.InterleavingKeeps(o, events);
  }

  /** The votes for epoch `e` that an authority holds after `events`. */
  function ReceivedVotes(o: Uploads.Office, events: seq<Interleavings.Event>, e: nat): Votes {
    Uploads.At(Interleavings.Later(o, Interleavings.NOTHING, events).votes, e)
  }

  // --- one authority

  /** No two elected descriptors share an identity. */
  lemma ElectedAreUnique(office: Office, votes: Votes, list: seq<MixDescriptor>)
    requires ListsOnce(votes) && |votes| <= office.verifiers && RoundTrips(office.mixes)
    requires ElectsMixes(office, votes, list)
    ensures Unique(list)
  {
    var c, lists, t := office.mixes, MixLists(office, votes), Threshold(office.verifiers);
    var keys :| ElectsBy(c, lists, t, office.admits, list, keys);
    hide Wins, ListsOnce, RoundTrips;
    forall i, j | 0 <= i < j < |list| ensures list[i].id != list[j].id {
      assert keys[i] in keys && keys[j] in keys;
      DistinctAt(keys, i, j);
      if list[i].id == list[j].id {
        DescriptorsAgree(office, office, votes, votes, votes.Keys, list[i], list[j], keys[i], keys[j]);
      }
    }
    UniqueMeans(list);
  }

  /** A list as long as the set of its elements has no duplicates. */
  lemma {:induction false} DistinctAt<T>(s: seq<T>, i: nat, j: nat)
    requires |Elements(s)| == |s| && i < j < |s|
    ensures s[i] != s[j]
  {
    var rest := s[..j] + s[j + 1..];
    if s[i] == s[j] {
      assert forall x | x in s :: x in rest;
      assert Elements(s) == Elements(rest);
      FewerElements(rest);
    }
  }

  /** The outcome of a tally does not depend on the order in which any map is visited: the parameters and the sorted
      descriptors are determined by the votes, the descriptors have distinct identities, and the replicas are
      determined up to their order. */
  lemma TallyIsDetermined(office: Office, votes: Votes, ra: Result, rb: Result)
    requires ListsOnce(votes) && |votes| <= office.verifiers && RoundTrips(office.mixes)
    requires IsTally(office, votes, ra) && IsTally(office, votes, rb)
    ensures ra.parameters == rb.parameters
    ensures Unique(ra.nodes) && ra.nodes == rb.nodes
    ensures Elements(ra.replicas) == Elements(rb.replicas) && |ra.replicas| == |rb.replicas|
  {
    ParametersAgree(office, office, votes, votes, votes.Keys, ra.parameters, rb.parameters);
    NodesDetermined(office, votes, ra.nodes, rb.nodes);
    SameElection(office.replicas, ReplicaLists(office, votes), Threshold(office.verifiers), office.admitsReplica,
      ra.replicas, rb.replicas);
  }

  lemma NodesAreUnique(office: Office, votes: Votes, nodes: seq<MixDescriptor>)
    requires ListsOnce(votes) && |votes| <= office.verifiers && RoundTrips(office.mixes)
    requires ElectsSorted(office, votes, nodes)
    ensures Unique(nodes)
  {
    var list :| ElectsMixes(office, votes, list) && multiset(nodes) == multiset(list);
    ElectedAreUnique(office, votes, list);
    UniqueOfBag(list, nodes);
  }

  lemma NodesDetermined(office: Office, votes: Votes, a: seq<MixDescriptor>, b: seq<MixDescriptor>)
    requires ListsOnce(votes) && |votes| <= office.verifiers && RoundTrips(office.mixes)
    requires ElectsSorted(office, votes, a) && ElectsSorted(office, votes, b)
    ensures Unique(a) && a == b
  {
    NodesAreUnique(office, votes, a);
    NodesAreUnique(office, votes, b);
    forall d ensures d in a <==> d in b {
      if d in a {
        var k := NodeWins(office, votes, a, d);
        WinnerIsNode(office, votes, b, k, d);
      }
      if d in b {
        var k := NodeWins(office, votes, b, d);
        WinnerIsNode(office, votes, a, k, d);
      }
    }
    SameBag(a, b);
    SortedIsUnique(a, b);
  }

  lemma SameElection<T>(c: Codec<T>, lists: map<Id, seq<T>>, threshold: nat, admits: T -> bool, a: seq<T>, b: seq<T>)
    requires Elects(c, lists, threshold, admits, a) && Elects(c, lists, threshold, admits, b)
    ensures Elements(a) == Elements(b) && |a| == |b|
  {
    var ka :| ElectsBy(c, lists, threshold, admits, a, ka);
    var kb :| ElectsBy(c, lists, threshold, admits, b, kb);
    hide Wins;
    assert Elements(ka) == Elements(kb);
    SameDecoded(c, ka, a, kb, b);
    SameDecoded(c, kb, b, ka, a);
  }

  lemma SameDecoded<T>(c: Codec<T>, ka: seq<Bytes>, a: seq<T>, kb: seq<Bytes>, b: seq<T>)
    requires Elements(ka) == Elements(kb) && |ka| == |a| && |kb| == |b|
    requires forall i | 0 <= i < |ka| :: c.decode(ka[i]) == Some(a[i])
    requires forall i | 0 <= i < |kb| :: c.decode(kb[i]) == Some(b[i])
    ensures Elements(a) <= Elements(b)
  {
    forall x | x in a ensures x in b {
      var i :| 0 <= i < |a| && a[i] == x;
      assert ka[i] in Elements(ka);
      var j :| 0 <= j < |kb| && kb[j] == ka[i];
      assert b[j] == x;
    }
  }
}
