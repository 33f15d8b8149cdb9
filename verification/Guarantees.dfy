/** What every run of the system guarantees: theorems about reachable worlds and about the steps that leave them. */
module Guarantees {
  import opened Prelude
  import opened Pki
  import opened Retention
  import opened Viability
  import opened Directory
  import opened Appchain
  import opened Safety

  // --- documents on the chain

  /** Every descriptor of a list is a gateway, a service node or a mix, in the document once. */
  lemma CarveKeepsAll(ds: seq<MixDescriptor>)
    ensures multiset(Gateways(ds)) + multiset(Services(ds)) + multiset(Mixes(ds)) == multiset(ds)
  {
    var all := multiset(Gateways(ds)) + multiset(Services(ds)) + multiset(Mixes(ds));
    forall d ensures all[d] == multiset(ds)[d] {
      FilterCount(ds, IsGateway, d);
      FilterCount(ds, IsServiceNode, d);
      FilterCount(ds, IsMix, d);
    }
  }

  lemma BallotIsEven(net: Network, c: Chain, b: Ballot)
    requires GoodBallot(net, c, b)
    ensures |b.doc.topology| == net.layers && Balanced(b.doc.topology)
    ensures multiset(b.doc.gateways) + multiset(b.doc.services) + multiset(Flat(b.doc.topology)) == multiset(b.list)
  {
    CarveKeepsAll(b.list);
  }

  lemma FlatOfMixes(t: Layering, ds: seq<MixDescriptor>)
    requires multiset(Flat(t)) == multiset(Mixes(ds))
    ensures forall d | d in Flat(t) :: IsMix(d)
  {
    forall d | d in Flat(t) ensures IsMix(d) {
      assert d in multiset(Mixes(ds));
      FilterMember(ds, IsMix, d);
    }
  }

  /** Every document on the chain is an even layering of what its author read from the chain: each descriptor of that
      list appears in it exactly once, it has all layers, layer sizes differ by at most one, and the number of nodes per
      layer in it is the size of the smallest one. */
  lemma ChainDocumentsAreEven(net: Network, start: World, steps: seq<Step>, e: nat)
    requires net.period > 0 && net.layers > 0 && Initial(net, start) && Runs(net, start, steps)
    requires e in After(net, start, steps).chain.docs
    ensures var c := After(net, start, steps).chain;
            var (doc, list) := (c.docs[e].doc, c.docs[e].list);
            && doc.epoch == e && |doc.topology| == net.layers && Balanced(doc.topology)
            && multiset(doc.gateways) + multiset(doc.services) + multiset(Flat(doc.topology)) == multiset(list)
            && Unique(list) && (forall d | d in list :: d in RegisteredAt(c, e))
            && (forall d | d in Flat(doc.topology) :: IsMix(d))
            && Plain(net, doc) && doc.nodesPerLayer == |doc.topology[net.layers - 1]|
            && (forall i | 0 <= i < net.layers :: doc.nodesPerLayer <= |doc.topology[i]|)
  {
    RunKeeps(net, start, steps);
    var c := After(net, start, steps).chain;
    AdoptedIsEven(net, c, e);
  }

  lemma AdoptedIsEven(net: Network, c: Chain, e: nat)
    requires net.layers > 0 && ChainInv(net, c) && e in c.docs
    ensures var (doc, list) := (c.docs[e].doc, c.docs[e].list);
            && doc.epoch == e && |doc.topology| == net.layers && Balanced(doc.topology)
            && multiset(doc.gateways) + multiset(doc.services) + multiset(Flat(doc.topology)) == multiset(list)
            && Unique(list) && (forall d | d in list :: d in RegisteredAt(c, e))
            && (forall d | d in Flat(doc.topology) :: IsMix(d))
            && Plain(net, doc) && doc.nodesPerLayer == |doc.topology[net.layers - 1]|
            && (forall i | 0 <= i < net.layers :: doc.nodesPerLayer <= |doc.topology[i]|)
  {
    assert GoodBallot(net, c, c.docs[e]);
    BallotIsEven(net, c, c.docs[e]);
    SmallestLayer(c.docs[e].doc.topology, Mixes(c.docs[e].list), net.layers);
    FlatOfMixes(c.docs[e].doc.topology, c.docs[e].list);
  }

  /** Only well-formed documents are ever sent as votes or adopted by the chain. */
  lemma BallotsAreWellFormed(net: Network, start: World, steps: seq<Step>)
    requires net.period > 0 && net.layers > 0 && Initial(net, start) && Runs(net, start, steps)
    ensures var c := After(net, start, steps).chain;
            && (forall b | b in c.ballots :: net.wellFormed(b.doc))
            && (forall e | e in c.docs :: c.docs[e].doc.epoch == e && net.wellFormed(c.docs[e].doc))
  {
    hide Places, Continues, Rooted, PeerInv;
    RunKeeps(net, start, steps);
    assert forall b | b in After(net, start, steps).chain.ballots :: GoodBallot(net, After(net, start, steps).chain, b);
  }

  /** A genesis epoch names an unbroken stretch of the chain: from it up to the document every epoch has a document,
      and all of them carry it, whichever authorities missed a document in between. */
  lemma GenesisIsUnbroken(net: Network, start: World, steps: seq<Step>, e: nat, k: nat)
    requires net.period > 0 && net.layers > 0 && Initial(net, start) && Runs(net, start, steps)
    requires e in After(net, start, steps).chain.docs
    ensures var docs := After(net, start, steps).chain.docs;
            var g := docs[e].doc.genesisEpoch;
            g <= e && (g <= k <= e ==> k in docs && docs[k].doc.epoch == k && docs[k].doc.genesisEpoch == g)
  {
    hide Places, Continues;
    RunKeeps(net, start, steps);
    var c := After(net, start, steps).chain;
    assert GoodBallot(net, c, c.docs[e]);
  }

  /** No run makes an authority panic. */
  lemma NoAuthorityPanics(net: Network, start: World, steps: seq<Step>, i: nat)
    requires net.period > 0 && net.layers > 0 && Initial(net, start) && Runs(net, start, steps)
    requires i < |After(net, start, steps).peers|
    ensures !After(net, start, steps).peers[i].s.phase.Crashed?
  {
    RunKeeps(net, start, steps);
    assert PeerInv(net, After(net, start, steps).chain, After(net, start, steps).peers[i]);
  }

  // --- voting epochs

  /** Outside the bootstrap a wakeup, however late, votes for no epoch beyond the next; and a confirmation that finds
      the next epoch's document has found the one that was voted on. */
  lemma VotingEpochAtWakeup(net: Network, start: World, steps: seq<Step>, i: nat, w: Wakeup)
    requires net.period > 0 && net.layers > 0 && Initial(net, start) && Runs(net, start, steps)
    requires i < |After(net, start, steps).peers|
    requires WakeEnabled(net, After(net, start, steps).chain, After(net, start, steps).peers[i], w)
    ensures var s := After(net, start, steps).peers[i].s;
            var epoch := EpochOf(net, w.start);
            && (!s.phase.Bootstrap? ==> 4 <= s.votingEpoch <= epoch + 1)
            && (s.phase.ConfirmConsensus? && epoch + 1 in s.documents ==> s.votingEpoch == epoch + 1)
  {
    RunKeeps(net, start, steps);
    var world := After(net, start, steps);
    var p := world.peers[i];
    assert PeerInv(net, world.chain, p);
    EpochMonotone(net, Due(p), w.start);
  }

  lemma VotingEpochStep(net: Network, world: World, step: Step, i: nat)
    requires net.period > 0 && Inv(net, world) && Enabled(net, world, step) && i < |world.peers| && !Restarts(step, i)
    ensures var world' := Apply(net, world, step);
            |world'.peers| == |world.peers| && world.peers[i].s.votingEpoch <= world'.peers[i].s.votingEpoch
  {
    hide Apply, Inv, Moved, Woken;
    if Wakes(step, i) {
      OwnStep(net, world, step, i);
      VotingEpochWake(net, world, step, i);
    } else {
      OtherStep(net, world, step, i);
    }
  }

  lemma VotingEpochWake(net: Network, world: World, step: Step, i: nat)
    requires net.period > 0 && Inv(net, world) && Enabled(net, world, step) && Wakes(step, i)
    ensures world.peers[i].s.votingEpoch <= Woken(net, world.peers[i], step.w).s.votingEpoch
  {
    hide Apply, Moved, EpochOf, Elapsed;
    var p, w := world.peers[i], step.w;
    assert PeerInv(net, world.chain, p);
    EpochMonotone(net, Due(p), w.start);
    EpochMonotone(net, p.clock, w.start);
    PhasedEpochs(net, world.chain, p.site, p.s, w, EpochOf(net, w.start), Elapsed(net, w.start), Elapsed(net, w.later),
                 EpochOf(net, p.clock) + 1);
  }

  /** As long as its process lives, the voting epoch of an authority never decreases. */
  lemma {:induction false} VotingEpochNeverDecreases(net: Network, start: World, steps: seq<Step>, k: nat, i: nat)
    requires net.period > 0 && net.layers > 0 && Initial(net, start) && Runs(net, start, steps) && i < |start.peers|
    requires k <= |steps| && forall j | k <= j < |steps| :: !Restarts(steps[j], i)
    ensures Runs(net, start, steps[..k])
    ensures var (before, after) := (After(net, start, steps[..k]), After(net, start, steps));
            && |before.peers| == |start.peers| == |after.peers|
            && before.peers[i].s.votingEpoch <= after.peers[i].s.votingEpoch
    decreases |steps|
  {
    if k == |steps| {
      assert steps[..k] == steps;
      SamePeers(net, start, steps);
    } else {
      var front := steps[..|steps| - 1];
      assert front[..k] == steps[..k];
      VotingEpochNeverDecreases(net, start, front, k, i);
      RunKeeps(net, start, front);
      VotingEpochStep(net, After(net, start, front), steps[|steps| - 1], i);
    }
  }

  // --- the cache

  /** What an authority has cached for an epoch is the chain's document, up to signatures; so two authorities never hold
      different documents for one epoch. */
  lemma CachesAgree(net: Network, start: World, steps: seq<Step>, i: nat, j: nat, e: nat)
    requires net.period > 0 && net.layers > 0 && Initial(net, start) && Runs(net, start, steps)
    requires var peers := After(net, start, steps).peers;
             i < |peers| && j < |peers| && e in peers[i].s.documents && e in peers[j].s.documents
    ensures var (c, peers) := (After(net, start, steps).chain, After(net, start, steps).peers);
            && e in c.docs && Agrees(peers[i].s.documents[e], c.docs[e].doc)
            && Agrees(peers[i].s.documents[e], peers[j].s.documents[e])
  {
    RunKeeps(net, start, steps);
    var world := After(net, start, steps);
    assert PeerInv(net, world.chain, world.peers[i]) && PeerInv(net, world.chain, world.peers[j]);
  }

  /** No step of any process replaces a cached document, however many fetches of its epoch are under way. */
  lemma CachedOnce(net: Network, world: World, step: Step, i: nat, e: nat)
    requires net.period > 0 && Inv(net, world) && Enabled(net, world, step) && i < |world.peers| && !Restarts(step, i)
    requires e in world.peers[i].s.documents && e in Apply(net, world, step).peers[i].s.documents
    ensures var (d, d') := (world.peers[i].s.documents[e], Apply(net, world, step).peers[i].s.documents[e]);
            d' == d
  {
    hide Apply, Moved, Woken, Inv, ChainInv, CacheInv, PeerInv;
    if Wakes(step, i) {
      OwnStep(net, world, step, i);
      InvPeer(net, world, i);
      WakeFrame(net, world.chain, world.peers[i], step.w);
    } else {
      OtherDocuments(net, world, step, i, e);
    }
  }

  /** Steps other than wakeups leave cached documents entirely alone. */
  lemma OtherDocuments(net: Network, world: World, step: Step, i: nat, e: nat)
    requires net.period > 0 && Enabled(net, world, step) && i < |world.peers| && !Wakes(step, i) && !Restarts(step, i)
    requires e in world.peers[i].s.documents
    ensures |Apply(net, world, step).peers| == |world.peers| && e in Apply(net, world, step).peers[i].s.documents
    ensures Apply(net, world, step).peers[i].s.documents[e] == world.peers[i].s.documents[e]
  {
    hide OnPostDescriptor;
    if step.Post? && step.i == i {
      PostFrame(net, world.peers[i], step.up, step.node, EpochOf(net, step.now));
    }
  }

  /** A phase changes no cached document, and no descriptor table. */
  ghost predicate Frames(s: State, s': State) {
    s'.descriptors == s.descriptors && s'.documents == s.documents
  }

  lemma PhasedFrame(net: Network, c: Chain, site: Site, s: State, w: Wakeup, epoch: nat, elapsed: nat, later: nat)
    requires ChainInv(net, c) && CacheInv(c, s)
    ensures Frames(s, Phased(net, site, s, w, epoch, elapsed, later).s)
  {
    hide AtAcceptDescriptor, StartFetch, ChainInv, CacheInv, Recall;
    if s.phase.AcceptDescriptor? {
      RecallKeeps(net, c, s);
      RecallTurn(net, s, later, w.list);
    }
  }

  lemma WakeFrame(net: Network, c: Chain, p: Peer, w: Wakeup)
    requires net.period > 0 && ChainInv(net, c) && CacheInv(c, p.s)
    ensures var s' := Woken(net, p, w).s;
            && (forall e | e in s'.documents :: e in p.s.documents && s'.documents[e] == p.s.documents[e])
            && (forall e | e in s'.descriptors :: e in p.s.descriptors && s'.descriptors[e] == p.s.descriptors[e])
  {
    hide Phased, EpochOf, Elapsed, ChainInv, CacheInv;
    PhasedFrame(net, c, p.site, p.s, w, EpochOf(net, w.start), Elapsed(net, w.start), Elapsed(net, w.later));
  }

  /** After every wakeup the cache holds only epochs from three before to one after the time of pruning, so at most
      five. */
  lemma CacheWindow(net: Network, start: World, steps: seq<Step>, i: nat, w: Wakeup)
    requires net.period > 0 && net.layers > 0 && Initial(net, start) && Runs(net, start, steps)
    requires i < |After(net, start, steps).peers|
    requires WakeEnabled(net, After(net, start, steps).chain, After(net, start, steps).peers[i], w)
    ensures var (p, now) := (After(net, start, steps).peers[i], EpochOf(net, w.pruning));
            var documents := Woken(net, p, w).s.documents;
            && (forall e | e in documents :: now <= e + 3 && e <= now + 1)
            && |documents| <= 5
  {
    var world := After(net, start, steps);
    var (p, now) := (world.peers[i], EpochOf(net, w.pruning));
    RunKeeps(net, start, steps);
    assert PeerInv(net, world.chain, p);
    WindowOf(net, world.chain, p, w);
    FiveKeys(Woken(net, p, w).s.documents, now);
  }

  lemma FiveKeys<T>(m: map<nat, T>, now: nat)
    requires 3 <= now && forall e | e in m :: now <= e + 3 && e <= now + 1
    ensures |m| <= 5
  {
    var window := {now - 3, now - 2, now - 1} + {now, now + 1};
    assert m.Keys <= window;
    SubsetCardinality(m.Keys, window);
    assert |window| <= |{now - 3, now - 2, now - 1}| + |{now, now + 1}|;
  }

  lemma WindowOf(net: Network, c: Chain, p: Peer, w: Wakeup)
    requires net.period > 0 && net.layers > 0 && ChainInv(net, c) && PeerInv(net, c, p) && WakeEnabled(net, c, p, w)
    ensures 3 <= EpochOf(net, w.pruning)
    ensures forall e | e in Woken(net, p, w).s.documents ::
              EpochOf(net, w.pruning) <= e + 3 && e <= EpochOf(net, w.pruning) + 1
  {
    var epoch := EpochOf(net, w.start);
    EpochMonotone(net, w.start, w.pruning);
    EpochMonotone(net, Due(p), w.start);
    EpochMonotone(net, p.clock, w.start);
    PhasedEpochs(net, c, p.site, p.s, w, epoch, Elapsed(net, w.start), Elapsed(net, w.later),
      EpochOf(net, p.clock) + 1);
    PhasedCache(net, c, p.site, p.s, w, epoch, Elapsed(net, w.start), Elapsed(net, w.later));
  }

  // --- votes

  /** The vote of an authority is a function of the chain: whoever computes it from the same descriptor list, with
      whatever signatures, earlier genesis or prior shared randoms it holds, computes the same one, exactly if both or
      neither have the document of the epoch before. */
  lemma VotesAgree(net: Network, c: Chain, s: State, t: State, ds: seq<MixDescriptor>)
    requires net.layers > 0 && ChainInv(net, c) && CacheInv(c, s) && CacheInv(c, t)
    requires 1 <= s.votingEpoch == t.votingEpoch < WORD
    requires GetVote(net, s, Some(ds)).1.Voted? && GetVote(net, t, Some(ds)).1.Voted?
    ensures GetVote(net, s, Some(ds)).1 == GetVote(net, t, Some(ds)).1 <==> (Cached(s).Some? <==> Cached(t).Some?)
  {
    hide Outcome;
    VoteGenesis(net, s, ds);
    VoteGenesis(net, t, ds);
    RecallCached(net, s);
    RecallCached(net, t);
    if Cached(s).Some? <==> Cached(t).Some? {
      SharedVote(net, c, s, t, ds);
    } else if Cached(s).Some? {
      OlderGenesis(net, c, s);
    } else {
      OlderGenesis(net, c, t);
    }
  }

  lemma VoteGenesis(net: Network, s: State, ds: seq<MixDescriptor>)
    ensures var outcome := GetVote(net, s, Some(ds)).1;
            outcome.Voted? ==> outcome.doc.genesisEpoch == Recall(net, s).genesisEpoch
  {
  }

  lemma SharedVote(net: Network, c: Chain, s: State, t: State, ds: seq<MixDescriptor>)
    requires net.layers > 0 && ChainInv(net, c) && CacheInv(c, s) && CacheInv(c, t)
    requires 1 <= s.votingEpoch == t.votingEpoch < WORD && (Cached(s).Some? <==> Cached(t).Some?)
    ensures GetVote(net, s, Some(ds)).1 == GetVote(net, t, Some(ds)).1
  {
    if Cached(s).Some? {
      var b := CachedFacts(net, c, s);
      b := CachedFacts(net, c, t);
    }
    RecallCached(net, s);
    RecallCached(net, t);
    SameOutcome(net, Recall(net, s), Recall(net, t), ds);
  }

  lemma RecallCached(net: Network, s: State)
    ensures var s' := Recall(net, s);
            && s'.votingEpoch == s.votingEpoch
            && s'.genesisEpoch == (match Cached(s) case Some(d) => d.genesisEpoch case None => s.votingEpoch)
            && Cached(s') == match Cached(s) case Some(d) => Some(d.(scheme := net.scheme)) case None => None
  {
  }

  /** A vote depends on the cache only through the genesis and the layering of the document of the epoch before. */
  lemma SameOutcome(net: Network, s: State, t: State, ds: seq<MixDescriptor>)
    requires s.votingEpoch == t.votingEpoch && s.genesisEpoch == t.genesisEpoch
    requires Cached(s).Some? <==> Cached(t).Some?
    requires Cached(s).Some? ==> Cached(s).value.topology == Cached(t).value.topology
    ensures Outcome(net, s, ds) == Outcome(net, t, ds)
  {
    assert ChooseTopology(net, Cached(s), Mixes(ds), Zeros()) == ChooseTopology(net, Cached(t), Mixes(ds), Zeros());
  }

  lemma OlderGenesis(net: Network, c: Chain, s: State)
    requires ChainInv(net, c) && CacheInv(c, s) && 1 <= s.votingEpoch < WORD && Cached(s).Some?
    ensures Recall(net, s).genesisEpoch < s.votingEpoch
  {
    var b := CachedFacts(net, c, s);
  }

  /** With the document of the epoch before, even the order of the list does not matter for the topology. */
  lemma ShuffledVotesAgree(net: Network, s: State, ds: seq<MixDescriptor>, shuffled: seq<MixDescriptor>)
    requires Cached(s).Some? && Unique(ds) && multiset(ds) == multiset(shuffled)
    requires GetVote(net, s, Some(ds)).1.Voted? && GetVote(net, s, Some(shuffled)).1.Voted?
    ensures var (a, b) := (GetVote(net, s, Some(ds)).1.doc, GetVote(net, s, Some(shuffled)).1.doc);
            a == b.(gateways := a.gateways, services := a.services)
  {
    FilterBag(ds, shuffled, IsMix);
    FilterUnique(ds, IsMix);
    OrderIrrelevant(Mixes(ds), Mixes(shuffled), Cached(Recall(net, s)).value.topology, net.layers, net.reader(Zeros()));
    UniqueOfBag(Mixes(ds), Mixes(shuffled));
  }

  // --- descriptor tables

  /** In every reachable state every descriptor is stored under the hash of its own key and authorized for its role. */
  lemma TablesAreAuthorized(net: Network, start: World, steps: seq<Step>, i: nat, e: nat, id: Id)
    requires net.period > 0 && net.layers > 0 && Initial(net, start) && Runs(net, start, steps)
    requires i < |After(net, start, steps).peers| && id in Table(After(net, start, steps).peers[i].s, e)
    ensures var p := After(net, start, steps).peers[i];
            var d := Table(p.s, e)[id];
            d.id == id && Authorized(p.site.roster, d)
  {
    RunKeeps(net, start, steps);
    assert PeerInv(net, After(net, start, steps).chain, After(net, start, steps).peers[i]);
  }

  /** The epoch's descriptors are all still there unless the epoch is pruned, and with a document none has come. */
  ghost predicate TableGrows(s: State, s': State, e: nat) {
    && (e in s'.descriptors ==>
          forall id | id in Table(s, e) :: id in Table(s', e) && Table(s', e)[id] == Table(s, e)[id])
    && (e in s.documents ==> Table(s', e).Keys <= Table(s, e).Keys)
  }

  /** Until its epoch is pruned no descriptor is replaced or removed, and once an epoch has a document none is added. */
  lemma TablesOnlyGrow(net: Network, world: World, step: Step, i: nat, e: nat)
    requires net.period > 0 && Inv(net, world) && Enabled(net, world, step) && i < |world.peers| && !Restarts(step, i)
    ensures TableGrows(world.peers[i].s, Apply(net, world, step).peers[i].s, e)
  {
    hide Apply, Moved, Woken, Inv, TableGrows;
    if Wakes(step, i) {
      OwnStep(net, world, step, i);
      InvPeer(net, world, i);
      WakeGrowsTable(net, world.chain, world.peers[i], step.w, e);
    } else {
      OtherGrowsTable(net, world, step, i, e);
    }
  }

  lemma InvPeer(net: Network, world: World, i: nat)
    requires net.period > 0 && Inv(net, world) && i < |world.peers|
    ensures ChainInv(net, world.chain) && PeerInv(net, world.chain, world.peers[i])
    ensures CacheInv(world.chain, world.peers[i].s)
  {
  }

  lemma WakeGrowsTable(net: Network, c: Chain, p: Peer, w: Wakeup, e: nat)
    requires net.period > 0 && ChainInv(net, c) && CacheInv(c, p.s)
    ensures TableGrows(p.s, Woken(net, p, w).s, e)
  {
    hide Woken, ChainInv, CacheInv;
    WakeFrame(net, c, p, w);
  }

  lemma OtherGrowsTable(net: Network, world: World, step: Step, i: nat, e: nat)
    requires net.period > 0 && Enabled(net, world, step) && i < |world.peers|
    requires !Wakes(step, i) && !Restarts(step, i)
    ensures TableGrows(world.peers[i].s, Apply(net, world, step).peers[i].s, e)
  {
    hide Apply, OnPostDescriptor, TableGrows, Enabled;
    OtherDescriptors(net, world, step, i);
    if step.Post? && step.i == i {
      PostGrowsTable(net, world.peers[i], step.up, step.node, EpochOf(net, step.now), e);
    } else {
      SameTables(world.peers[i].s, Apply(net, world, step).peers[i].s, e);
    }
  }

  /** Apart from wakeups only a post to the authority itself changes its tables. */
  lemma OtherDescriptors(net: Network, world: World, step: Step, i: nat)
    requires net.period > 0 && Enabled(net, world, step) && i < |world.peers|
    requires !Wakes(step, i) && !Restarts(step, i)
    ensures var (p, s') := (world.peers[i], Apply(net, world, step).peers[i].s);
            if step.Post? && step.i == i
            then s' == OnPostDescriptor(net, p.site, p.s, step.up, step.node, EpochOf(net, step.now)).0
            else s'.descriptors == p.s.descriptors
  {
    OwnMove(net, world, step, i);
    hide Apply, OnPostDescriptor, EpochOf, Woken, Boot;
  }

  lemma SameTables(s: State, s': State, e: nat)
    requires s'.descriptors == s.descriptors
    ensures TableGrows(s, s', e)
  {
  }

  lemma PostGrowsTable(net: Network, p: Peer, up: Upload, node: Id, now: nat, e: nat)
    ensures TableGrows(p.s, OnPostDescriptor(net, p.site, p.s, up, node, now).0, e)
  {
  }
}
