/** Counting the votes of an epoch. The maps of votes and of tallies are visited in an arbitrary order: the loops pick
    any key that is left. */
module Tally {
  import opened Prelude
  import opened Pki
  import opened Topology

  /** A serialization as the library offers it; both directions may fail. */
  datatype Codec<!T> = Codec(encode: T -> Option<Bytes>, decode: Bytes -> Option<T>)

  ghost predicate RoundTrips<T(!new)>(c: Codec<T>) {
    forall x :: c.encode(x).Some? ==> c.decode(c.encode(x).value) == Some(x)
  }

  /** What an authority counts with. `verifiers` is the number of authorities, itself included. */
  datatype Office = Office(
    verifiers: nat,
    lambdaG: real, // from its own configuration
    mixes: Codec<MixDescriptor>,
    replicas: Codec<ReplicaDescriptor>,
    parameters: Codec<Parameters>,
    admits: MixDescriptor -> bool,
    admitsReplica: ReplicaDescriptor -> bool)

  type Votes = map<Id, Document>

  type Counts = map<Bytes, nat>

  function Threshold(verifiers: nat): nat { verifiers / 2 + 1 }

  /** All descriptors of a vote, in the order in which they are counted. */
  function Listed(vote: Document): seq<MixDescriptor> {
    vote.gateways + vote.services + Flat(vote.topology)
  }

  // --- counts

  function Occurrences<T>(c: Codec<T>, list: seq<T>, k: Bytes): nat {
    if list == [] then 0
    else Occurrences(c, list[..|list| - 1], k) + if c.encode(list[|list| - 1]) == Some(k) then 1 else 0
  }

  /** How often the lists of `ids` have an entry encoded as `k`. */
  ghost function Backing<T>(c: Codec<T>, lists: map<Id, seq<T>>, ids: set<Id>, k: Bytes): nat
    requires ids <= lists.Keys
  {
    if ids == {} then 0
    else var x :| x in ids; Occurrences(c, lists[x], k) + Backing(c, lists, ids - {x}, k)
  }

  lemma {:induction false} BackingRemove<T>(c: Codec<T>, lists: map<Id, seq<T>>, ids: set<Id>, x: Id, k: Bytes)
    requires ids <= lists.Keys && x in ids
    ensures Backing(c, lists, ids, k) == Occurrences(c, lists[x], k) + Backing(c, lists, ids - {x}, k)
  {
    var y :| y in ids && Backing(c, lists, ids, k) == Occurrences(c, lists[y], k) + Backing(c, lists, ids - {y}, k);
    if y != x {
      BackingRemove(c, lists, ids - {y}, x, k);
      BackingRemove(c, lists, ids - {x}, y, k);
      assert ids - {y} - {x} == ids - {x} - {y};
    }
  }

  /** The count in a tally; a key that is not there has not been seen. */
  function CountOf(t: Counts, k: Bytes): nat {
    if k in t then t[k] else 0
  }

  /** The tally holds the sum of `former` and the occurrences in a list. */
  ghost predicate Adds<T>(c: Codec<T>, former: Counts, list: seq<T>, t: Counts) {
    forall k :: CountOf(t, k) == CountOf(former, k) + Occurrences(c, list, k)
  }

  lemma {:induction false} OccurrencesAppend<T>(c: Codec<T>, a: seq<T>, b: seq<T>, k: Bytes)
    ensures Occurrences(c, a + b, k) == Occurrences(c, a, k) + Occurrences(c, b, k)
  {
    if b == [] {
      assert a + b == a;
    } else {
      assert (a + b)[..|a + b| - 1] == a + b[..|b| - 1];
      OccurrencesAppend(c, a, b[..|b| - 1], k);
    }
  }

  lemma AddsBoth<T>(c: Codec<T>, t0: Counts, a: seq<T>, t1: Counts, b: seq<T>, t2: Counts)
    requires Adds(c, t0, a, t1) && Adds(c, t1, b, t2)
    ensures Adds(c, t0, a + b, t2)
  {
    forall k ensures CountOf(t2, k) == CountOf(t0, k) + Occurrences(c, a + b, k) {
      OccurrencesAppend(c, a, b, k);
    }
  }

  /** Counts the entries of one list. Entries that cannot be encoded are skipped. */
  method Count<T>(c: Codec<T>, former: Counts, list: seq<T>) returns (tally: Counts)
    ensures Adds(c, former, list, tally)
  {
    tally := former;
    for i := 0 to |list|
      invariant Adds(c, former, list[..i], tally)
    {
      assert list[..i + 1][..i] == list[..i];
      var raw := c.encode(list[i]);
      if raw.None? { continue; }
      if raw.value !in tally {
        tally := tally[raw.value := 0];
      }
      tally := tally[raw.value := tally[raw.value] + 1];
    }
    assert list[..|list|] == list;
  }

  /** Counts all descriptors of a vote: gateways, service nodes, and the mixes layer by layer. */
  method CountMixes(c: Codec<MixDescriptor>, former: Counts, vote: Document) returns (tally: Counts)
    ensures Adds(c, former, Listed(vote), tally)
  {
    var gateways := Count(c, former, vote.gateways);
    var services := Count(c, gateways, vote.services);
    AddsBoth(c, former, vote.gateways, gateways, vote.services, services);
    tally := services;
    var edge := vote.gateways + vote.services;
    assert edge + Flat(vote.topology[..0]) == edge;
    for i := 0 to |vote.topology|
      invariant Adds(c, former, edge + Flat(vote.topology[..i]), tally)
    {
      var more := Count(c, tally, vote.topology[i]);
      AddsBoth(c, former, edge + Flat(vote.topology[..i]), tally, vote.topology[i], more);
      FlatSnoc(vote.topology, i, edge);
      tally := more;
    }
    assert vote.topology[..|vote.topology|] == vote.topology;
  }

  lemma FlatSnoc(t: Layering, i: nat, edge: seq<MixDescriptor>)
    requires i < |t|
    ensures edge + Flat(t[..i + 1]) == edge + Flat(t[..i]) + t[i]
  {
    assert t[..i + 1] == t[..i] + [t[i]];
    FlatAppend(t[..i], [t[i]]);
    assert Flat([t[i]]) == t[i];
  }

  // --- the tallies of an epoch

  /** What the counting authority makes of a vote's parameters: lambdaG comes from its own configuration. */
  function ParametersOf(office: Office, vote: Document): Parameters {
    vote.parameters + [office.lambdaG]
  }

  /** The parameters of a vote, as a list of one entry. */
  function ParameterLists(office: Office, votes: Votes): (lists: map<Id, seq<Parameters>>)
    ensures lists.Keys == votes.Keys
  {
    map id | id in votes :: [ParametersOf(office, votes[id])]
  }

  /** What counts of a vote whose parameters cannot be encoded: nothing. */
  predicate Counted(office: Office, vote: Document) {
    office.parameters.encode(ParametersOf(office, vote)).Some?
  }

  function MixLists(office: Office, votes: Votes): (lists: map<Id, seq<MixDescriptor>>)
    ensures lists.Keys == votes.Keys
  {
    map id | id in votes :: if Counted(office, votes[id]) then Listed(votes[id]) else []
  }

  function ReplicaLists(office: Office, votes: Votes): (lists: map<Id, seq<ReplicaDescriptor>>)
    ensures lists.Keys == votes.Keys
  {
    map id | id in votes :: if Counted(office, votes[id]) then votes[id].replicas else []
  }

  ghost predicate Tallied<T>(c: Codec<T>, lists: map<Id, seq<T>>, done: set<Id>, t: Counts)
    requires done <= lists.Keys
  {
    forall k :: CountOf(t, k) == Backing(c, lists, done, k)
  }

  lemma TalliedNext<T>(c: Codec<T>, lists: map<Id, seq<T>>, done: set<Id>, x: Id, t: Counts, t': Counts)
    requires done <= lists.Keys && x in lists && x !in done && Tallied(c, lists, done, t) && Adds(c, t, lists[x], t')
    ensures Tallied(c, lists, done + {x}, t')
  {
    forall k ensures CountOf(t', k) == Backing(c, lists, done + {x}, k) {
      BackingRemove(c, lists, done + {x}, x, k);
      assert done + {x} - {x} == done;
    }
  }

  datatype Tallies = Tallies(mixes: Counts, parameters: Counts, replicas: Counts)

  ghost predicate AllTallied(office: Office, votes: Votes, done: set<Id>, t: Tallies)
    requires done <= votes.Keys
  {
    && Tallied(office.mixes, MixLists(office, votes), done, t.mixes)
    && Tallied(office.parameters, ParameterLists(office, votes), done, t.parameters)
    && Tallied(office.replicas, ReplicaLists(office, votes), done, t.replicas)
  }

  ghost predicate AddsVote(office: Office, votes: Votes, id: Id, t: Tallies, t': Tallies)
    requires id in votes
  {
    && Adds(office.mixes, t.mixes, MixLists(office, votes)[id], t'.mixes)
    && Adds(office.parameters, t.parameters, ParameterLists(office, votes)[id], t'.parameters)
    && Adds(office.replicas, t.replicas, ReplicaLists(office, votes)[id], t'.replicas)
  }

  lemma AllTalliedNext(office: Office, votes: Votes, done: set<Id>, x: Id, t: Tallies, t': Tallies)
    requires done <= votes.Keys && x in votes && x !in done && AllTallied(office, votes, done, t)
             && AddsVote(office, votes, x, t, t')
    ensures AllTallied(office, votes, done + {x}, t')
  {
    TalliedNext(office.mixes, MixLists(office, votes), done, x, t.mixes, t'.mixes);
    TalliedNext(office.parameters, ParameterLists(office, votes), done, x, t.parameters, t'.parameters);
    TalliedNext(office.replicas, ReplicaLists(office, votes), done, x, t.replicas, t'.replicas);
  }

  method CountVote(office: Office, votes: Votes, id: Id, t: Tallies) returns (t': Tallies)
    requires id in votes
    ensures AddsVote(office, votes, id, t, t')
  {
    var vote := votes[id];
    var parameters := Count(office.parameters, t.parameters, [ParametersOf(office, vote)]);
    if !Counted(office, vote) {
      return t.(parameters := parameters);
    }
    var mixes := CountMixes(office.mixes, t.mixes, vote);
    var replicas := Count(office.replicas, t.replicas, vote.replicas);
    return Tallies(mixes, parameters, replicas);
  }

  method CountVotes(office: Office, votes: Votes) returns (t: Tallies)
    ensures AllTallied(office, votes, votes.Keys, t)
  {
    t := Tallies(map[], map[], map[]);
    var todo := votes.Keys;
    while todo != {}
      invariant todo <= votes.Keys && AllTallied(office, votes, votes.Keys - todo, t)
      decreases todo
    {
      var id :| id in todo;
      var t' := CountVote(office, votes, id, t);
      AllTalliedNext(office, votes, votes.Keys - todo, id, t, t');
      assert votes.Keys - todo + {id} == votes.Keys - (todo - {id});
      t, todo := t', todo - {id};
    }
    assert votes.Keys - todo == votes.Keys;
  }

  // --- what reaches the threshold

  ghost predicate Wins<T>(c: Codec<T>, lists: map<Id, seq<T>>, threshold: nat, admits: T -> bool, k: Bytes) {
    Backing(c, lists, lists.Keys, k) >= threshold && c.decode(k).Some? && admits(c.decode(k).value)
  }

  /** The list has one entry for each encoding that wins, and no other. */
  ghost predicate Elects<T>(c: Codec<T>, lists: map<Id, seq<T>>, threshold: nat, admits: T -> bool, list: seq<T>) {
    exists keys :: ElectsBy(c, lists, threshold, admits, list, keys)
  }

  ghost predicate ElectsBy<T>(c: Codec<T>, lists: map<Id, seq<T>>, threshold: nat, admits: T -> bool, list: seq<T>,
                              keys: seq<Bytes>) {
    && |Elements(keys)| == |keys| == |list|
    && (forall k :: k in keys <==> Wins(c, lists, threshold, admits, k))
    && forall i | 0 <= i < |keys| :: c.decode(keys[i]) == Some(list[i])
  }

  /** Some encoding reaches the threshold that cannot be decoded. */
  ghost predicate Broken<T>(c: Codec<T>, lists: map<Id, seq<T>>, threshold: nat) {
    exists k :: Backing(c, lists, lists.Keys, k) >= threshold && c.decode(k).None?
  }

  method Elect<T>(c: Codec<T>, ghost lists: map<Id, seq<T>>, tally: Counts, threshold: nat, admits: T -> bool)
    returns (r: Option<seq<T>>)
    requires threshold > 0 && Tallied(c, lists, lists.Keys, tally)
    ensures r.None? <==> Broken(c, lists, threshold)
    ensures r.Some? ==> Elects(c, lists, threshold, admits, r.value)
  {
    var list: seq<T>, todo := [], tally.Keys;
    ghost var keys: seq<Bytes> := [];
    while todo != {}
      invariant todo <= tally.Keys
      invariant |Elements(keys)| == |keys| == |list|
      invariant forall i | 0 <= i < |keys| :: c.decode(keys[i]) == Some(list[i])
      invariant forall k :: k in keys <==> k in tally && k !in todo && Wins(c, lists, threshold, admits, k)
      invariant forall k | k in tally && k !in todo && tally[k] >= threshold :: c.decode(k).Some?
      decreases todo
    {
      var raw :| raw in todo;
      assert CountOf(tally, raw) == Backing(c, lists, lists.Keys, raw);
      if tally[raw] >= threshold {
        var desc := c.decode(raw);
        if desc.None? {
          return None;
        }
        if admits(desc.value) {
          assert Elements(keys + [raw]) == Elements(keys) + {raw};
          list, keys := list + [desc.value], keys + [raw];
        }
      }
      todo := todo - {raw};
    }
    forall k | Backing(c, lists, lists.Keys, k) >= threshold ensures k in tally && tally[k] >= threshold {
      assert CountOf(tally, k) == Backing(c, lists, lists.Keys, k);
    }
    assert ElectsBy(c, lists, threshold, admits, list, keys);
    return Some(list);
  }

  /** Some encoding of the parameters `p` reaches the threshold. */
  ghost predicate Prevails(c: Codec<Parameters>, lists: map<Id, seq<Parameters>>, threshold: nat, p: Parameters) {
    exists k :: Backing(c, lists, lists.Keys, k) >= threshold && c.decode(k) == Some(p)
  }

  method ChooseParameters(c: Codec<Parameters>, ghost lists: map<Id, seq<Parameters>>, tally: Counts, threshold: nat)
    returns (r: Option<Parameters>)
    requires threshold > 0 && Tallied(c, lists, lists.Keys, tally)
    ensures r.None? ==> forall p :: !Prevails(c, lists, threshold, p)
    ensures r.Some? ==> Prevails(c, lists, threshold, r.value)
  {
    var todo := tally.Keys;
    while todo != {}
      invariant todo <= tally.Keys
      invariant forall k | k in tally && k !in todo :: tally[k] < threshold || c.decode(k).None?
      decreases todo
    {
      var bs :| bs in todo;
      assert CountOf(tally, bs) == Backing(c, lists, lists.Keys, bs);
      var params := c.decode(bs);
      todo := todo - {bs};
      if params.None? { continue; }
      if tally[bs] >= threshold {
        return params;
      }
    }
    forall k | Backing(c, lists, lists.Keys, k) >= threshold ensures c.decode(k).None? {
      assert CountOf(tally, k) == Backing(c, lists, lists.Keys, k);
    }
    return None;
  }

  datatype Result = Agreed(nodes: seq<MixDescriptor>, replicas: seq<ReplicaDescriptor>,
    parameters: Parameters) | NoConsensus

  ghost predicate ElectsMixes(office: Office, votes: Votes, list: seq<MixDescriptor>) {
    Elects(office.mixes, MixLists(office, votes), Threshold(office.verifiers), office.admits, list)
  }

  /** The sorted descriptors of the mixes' winning encodings. */
  ghost predicate ElectsSorted(office: Office, votes: Votes, nodes: seq<MixDescriptor>) {
    Sorted(nodes) && exists list | ElectsMixes(office, votes, list) :: multiset(nodes) == multiset(list)
  }

  ghost predicate ElectsReplicas(office: Office, votes: Votes, replicas: seq<ReplicaDescriptor>) {
    Elects(office.replicas, ReplicaLists(office, votes), Threshold(office.verifiers), office.admitsReplica, replicas)
  }

  ghost predicate Prevailing(office: Office, votes: Votes, p: Parameters) {
    Prevails(office.parameters, ParameterLists(office, votes), Threshold(office.verifiers), p)
  }

  ghost predicate Undecodable(office: Office, votes: Votes) {
    || Broken(office.mixes, MixLists(office, votes), Threshold(office.verifiers))
    || Broken(office.replicas, ReplicaLists(office, votes), Threshold(office.verifiers))
  }

  method ElectSorted(office: Office, votes: Votes, t: Tallies)
    returns (nodes: Option<seq<MixDescriptor>>, replicas: Option<seq<ReplicaDescriptor>>)
    requires AllTallied(office, votes, votes.Keys, t)
    ensures nodes.None? || replicas.None? <==> Undecodable(office, votes)
    ensures nodes.Some? ==> ElectsSorted(office, votes, nodes.value)
    ensures replicas.Some? ==> ElectsReplicas(office, votes, replicas.value)
  {
    hide Elects, Broken;
    nodes, replicas := None, None;
    var threshold := Threshold(office.verifiers);
    nodes := Elect(office.mixes, MixLists(office, votes), t.mixes, threshold, office.admits);
    if nodes.None? { return; }
    assert ElectsMixes(office, votes, nodes.value);
    replicas := Elect(office.replicas, ReplicaLists(office, votes), t.replicas, threshold, office.admitsReplica);
    var sorted := SortNodesByPublicKey(nodes.value);
    nodes := Some(sorted);
  }

  method TallyVotes(office: Office, all: map<nat, Votes>, epoch: nat) returns (r: Result)
    ensures r.NoConsensus?
            ==> epoch !in all || |all[epoch]| < Threshold(office.verifiers) || Undecodable(office, all[epoch])
                               || forall p :: !Prevailing(office, all[epoch], p)
    ensures r.Agreed?
            ==> epoch in all && |all[epoch]| >= Threshold(office.verifiers) && !Undecodable(office, all[epoch])
                          && Prevailing(office, all[epoch], r.parameters)
                          && ElectsSorted(office, all[epoch], r.nodes) && ElectsReplicas(office, all[epoch], r.replicas)
  {
    if epoch !in all { return NoConsensus; }
    var votes := all[epoch];
    var threshold := Threshold(office.verifiers);
    if |votes| < threshold { return NoConsensus; }
    var t := CountVotes(office, votes);
    hide ElectsSorted, ElectsReplicas, Undecodable, Prevails;
    var nodes, replicas := ElectSorted(office, votes, t);
    if nodes.None? || replicas.None? { return NoConsensus; }
    var params := ChooseParameters(office.parameters, ParameterLists(office, votes), t.parameters, threshold);
    if params.None? { return NoConsensus; }
    return Agreed(nodes.value, replicas.value, params.value);
  }
}
