/** What a successful tally means, without encodings: who is elected is what a majority of the authorities listed. */
module Elections {
  import opened Prelude
  import opened Pki
  import opened Tally
  import opened Quorums

  /** Who has `x` in its list. */
  ghost function Listing<T>(lists: map<Id, seq<T>>, x: T): set<Id> {
    set id | id in lists && x in lists[id]
  }

  ghost predicate AtMostOnceEach<T(!new)>(c: Codec<T>, lists: map<Id, seq<T>>) {
    forall id, k | id in lists :: Occurrences(c, lists[id], k) <= 1
  }

  lemma {:induction false} OccursIffIn<T(!new)>(c: Codec<T>, list: seq<T>, x: T, k: Bytes)
    requires RoundTrips(c) && c.encode(x) == Some(k)
    ensures Occurrences(c, list, k) > 0 <==> x in list
  {
    if list != [] {
      var front, last := list[..|list| - 1], list[|list| - 1];
      assert list == front + [last];
      OccursIffIn(c, front, x, k);
      assert c.encode(last) == Some(k) ==> c.decode(k) == Some(last);
      assert c.decode(k) == Some(x);
    }
  }

  lemma BackingIsListing<T(!new)>(c: Codec<T>, lists: map<Id, seq<T>>, x: T, k: Bytes)
    requires RoundTrips(c) && c.encode(x) == Some(k) && AtMostOnceEach(c, lists)
    ensures Backing(c, lists, lists.Keys, k) == |Listing(lists, x)|
  {
    BackingIsSupport(c, lists, lists.Keys, k);
    forall id | id in lists ensures Occurrences(c, lists[id], k) > 0 <==> x in lists[id] {
      OccursIffIn(c, lists[id], x, k);
    }
    assert Supporters(c, lists, lists.Keys, k) == Listing(lists, x);
  }

  /** What reaches the threshold has been listed. */
  lemma {:induction false} BackedOccurs<T(!new)>(c: Codec<T>, lists: map<Id, seq<T>>, ids: set<Id>, k: Bytes)
    returns (x: T)
    requires ids <= lists.Keys && Backing(c, lists, ids, k) > 0
    ensures c.encode(x) == Some(k)
  {
    var id :| id in ids;
    BackingRemove(c, lists, ids, id, k);
    if Occurrences(c, lists[id], k) > 0 {
      x := OccursInList(c, lists[id], k);
    } else {
      x := BackedOccurs(c, lists, ids - {id}, k);
    }
  }

  lemma ElectsExactly<T(!new)>(c: Codec<T>, lists: map<Id, seq<T>>, threshold: nat, admits: T -> bool, list: seq<T>,
                               x: T)
    requires RoundTrips(c) && AtMostOnceEach(c, lists) && threshold > 0 && Elects(c, lists, threshold, admits, list)
    ensures x in list <==> c.encode(x).Some? && admits(x) && |Listing(lists, x)| >= threshold
  {
    hide AtMostOnceEach, Listing;
    var keys :| ElectsBy(c, lists, threshold, admits, list, keys);
    if x in list {
      var i :| 0 <= i < |list| && list[i] == x;
      assert keys[i] in keys && Wins(c, lists, threshold, admits, keys[i]);
      var y := BackedOccurs(c, lists, lists.Keys, keys[i]);
      assert c.decode(keys[i]) == Some(y);
      BackingIsListing(c, lists, x, keys[i]);
    }
    if c.encode(x).Some? && admits(x) && |Listing(lists, x)| >= threshold {
      var k := c.encode(x).value;
      BackingIsListing(c, lists, x, k);
      assert Wins(c, lists, threshold, admits, k);
      var i :| 0 <= i < |keys| && keys[i] == k;
      assert list[i] == x;
    }
  }

  // --- the three results of a tally

  /** The vote has the descriptor, as a gateway, as a service node or in a layer. */
  ghost predicate Has(vote: Document, d: MixDescriptor) {
    d in vote.gateways || d in vote.services || exists i :: 0 <= i < |vote.topology| && d in vote.topology[i]
  }

  /** The authorities whose votes count and have the descriptor. */
  ghost function Backers(office: Office, votes: Votes, d: MixDescriptor): set<Id> {
    set id | id in votes && Counted(office, votes[id]) && Has(votes[id], d)
  }

  /** A tally elects exactly the admitted descriptors that more than half of all authorities have in votes that
      count. */
  lemma NodesExactly(office: Office, votes: Votes, r: Result, d: MixDescriptor)
    requires IsTally(office, votes, r) && ListsOnce(votes) && RoundTrips(office.mixes)
    ensures d in r.nodes
            <==> office.mixes.encode(d).Some? && office.admits(d) && 2 * |Backers(office, votes, d)| > office.verifiers
  {
    hide Prevailing, ElectsReplicas, RoundTrips;
    var c, lists := office.mixes, MixLists(office, votes);
    forall id, k | id in lists ensures Occurrences(c, lists[id], k) <= 1 {
      ListedOnce(office, votes, id, k);
    }
    var list :| ElectsMixes(office, votes, list) && multiset(r.nodes) == multiset(list);
    ElectsExactly(c, lists, Threshold(office.verifiers), office.admits, list, d);
    assert d in r.nodes <==> d in multiset(list);
    ListingIsBackers(office, votes, d);
  }

  lemma ListingIsBackers(office: Office, votes: Votes, d: MixDescriptor)
    ensures Listing(MixLists(office, votes), d) == Backers(office, votes, d)
  {
    forall id | id in votes ensures d in Listed(votes[id]) <==> Has(votes[id], d) {
      FlatMember(votes[id].topology, d);
    }
  }

  ghost predicate NoRepeats<T>(s: seq<T>) {
    forall i, j | 0 <= i < j < |s| :: s[i] != s[j]
  }

  lemma {:induction false} OccursOnceIn<T(!new)>(c: Codec<T>, list: seq<T>, k: Bytes)
    requires RoundTrips(c) && NoRepeats(list)
    ensures Occurrences(c, list, k) <= 1
  {
    if list != [] {
      var front, last := list[..|list| - 1], list[|list| - 1];
      OccursOnceIn(c, front, k);
      if c.encode(last) == Some(k) {
        OccursIffIn(c, front, last, k);
      }
    }
  }

  /** The replicas likewise, if no vote repeats one. */
  lemma ReplicasExactly(office: Office, votes: Votes, r: Result, d: ReplicaDescriptor)
    requires IsTally(office, votes, r) && RoundTrips(office.replicas)
    requires forall id | id in votes :: NoRepeats(votes[id].replicas)
    ensures d in r.replicas
            <==> office.replicas.encode(d).Some? && office.admitsReplica(d)
                 && 2 * |set id | id in votes && Counted(office, votes[id]) && d in votes[id].replicas|
                    > office.verifiers
  {
    hide Prevailing, ElectsSorted, RoundTrips;
    var c, lists := office.replicas, ReplicaLists(office, votes);
    forall id, k | id in lists ensures Occurrences(c, lists[id], k) <= 1 {
      OccursOnceIn(c, lists[id], k);
    }
    ElectsExactly(c, lists, Threshold(office.verifiers), office.admitsReplica, r.replicas, d);
    assert Listing(lists, d) == set id | id in votes && Counted(office, votes[id]) && d in votes[id].replicas;
  }

  /** The agreed parameters are those that more than half of all authorities voted for, with the own lambdaG. */
  lemma ParametersExactly(office: Office, votes: Votes, r: Result, p: Parameters)
    requires IsTally(office, votes, r) && RoundTrips(office.parameters) && |votes| <= office.verifiers
    ensures p == r.parameters
            <==> office.parameters.encode(p).Some?
                 && 2 * |set id | id in votes && p == votes[id].parameters + [office.lambdaG]| > office.verifiers
  {
    hide ElectsSorted, ElectsReplicas;
    var c, lists, t := office.parameters, ParameterLists(office, votes), Threshold(office.verifiers);
    forall id, k | id in lists ensures Occurrences(c, lists[id], k) <= 1 {
      OneEntry(c, ParametersOf(office, votes[id]), k);
    }
    assert Listing(lists, p) == set id | id in votes && p == votes[id].parameters + [office.lambdaG];
    hide Listing, ParametersOf, RoundTrips;
    if p == r.parameters {
      var k :| Backing(c, lists, lists.Keys, k) >= t && c.decode(k) == Some(p);
      var y := BackedOccurs(c, lists, lists.Keys, k);
      DecodesBack(c, y, k);
      BackingIsListing(c, lists, p, k);
    }
    if c.encode(p).Some? && |Listing(lists, p)| >= t {
      var k := c.encode(p).value;
      BackingIsListing(c, lists, p, k);
      DecodesBack(c, p, k);
      ParametersAgree(office, office, votes, votes, votes.Keys, p, r.parameters);
    }
  }

  lemma DecodesBack<T(!new)>(c: Codec<T>, x: T, k: Bytes)
    requires RoundTrips(c) && c.encode(x) == Some(k)
    ensures c.decode(k) == Some(x)
  {
  }
}
