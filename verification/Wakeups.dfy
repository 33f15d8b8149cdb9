/** What one wakeup of the state machine does, phase by phase: which phase follows and when, what is sent, what the
    chain is asked for and what is kept. */
module Wakeups {
  import opened Prelude
  import opened Pki
  import opened Topology
  import opened Directory
  import opened Appchain
  import opened Safety
  import opened Guarantees

  /** The fetch of a document, unless it is cached. */
  function IfMissing(s: State, epoch: nat): multiset<Fetch> {
    if epoch in s.documents then multiset{} else multiset{Asked(epoch)}
  }

  /** A bootstrap asks for the documents of this epoch and the one before. After an eighth of the period it is too late
      for this round and waits for the next epoch; otherwise the descriptors are sent at an eighth, plus the jitter. */
  lemma BootstrapWakeup(net: Network, site: Site, s: State, w: Wakeup)
    requires net.period > 0 && s.phase.Bootstrap?
    ensures var (t, epoch, elapsed) := (FsmStep(net, site, s, w), EpochOf(net, w.start), Elapsed(net, w.start));
            var late := elapsed > net.period / 8;
            && t.effect == Quiet && t.s.genesisEpoch == 0 && t.s.priorSrv == s.priorSrv
            && t.s.fetches == s.fetches + IfMissing(s, Sub64(epoch, 1)) + IfMissing(s, epoch)
            && (if late then t.s.phase.Bootstrap? && t.s.votingEpoch == Add64(epoch, 2)
               && t.sleep == net.period - elapsed
                else t.s.phase.DescriptorSend? && t.s.votingEpoch == Add64(epoch, 1)
                     && t.sleep == net.period / 8 - elapsed + w.jitter)
  {
    hide EpochOf, Elapsed;
  }

  /** The descriptor of the own node is sent, for the voting epoch, exactly if there is one. */
  lemma SendWakeup(net: Network, site: Site, s: State, w: Wakeup)
    requires net.period > 0 && s.phase.DescriptorSend?
    ensures var (t, table) := (FsmStep(net, site, s, w), Table(s, s.votingEpoch));
            && t.effect == (if site.node in table then SubmitDescriptor(table[site.node], s.votingEpoch) else Quiet)
            && t.s.phase.AcceptDescriptor? && t.s.votingEpoch == s.votingEpoch && t.s.fetches == s.fetches
            && t.s.genesisEpoch == s.genesisEpoch && t.s.priorSrv == s.priorSrv
            && t.sleep == net.period * 2 / 8 - Elapsed(net, w.start) + w.jitter
  {
    hide EpochOf, Elapsed;
  }

  /** After voting exactly the document that was voted on is asked for. */
  lemma FetchWakeup(net: Network, site: Site, s: State, w: Wakeup)
    requires net.period > 0 && s.phase.AcceptVote?
    ensures var t := FsmStep(net, site, s, w);
            && t.effect == Quiet && t.s.fetches == s.fetches + IfMissing(s, s.votingEpoch)
            && t.s.phase.ConfirmConsensus? && t.s.votingEpoch == s.votingEpoch
            && t.s.genesisEpoch == s.genesisEpoch && t.s.priorSrv == s.priorSrv
            && t.sleep == 5 * (net.period / 8) - Elapsed(net, w.later)
  {
    hide EpochOf, Elapsed;
  }

  /** A round is confirmed exactly if the next epoch's document has arrived. */
  lemma ConfirmWakeup(net: Network, site: Site, s: State, w: Wakeup)
    requires net.period > 0 && s.phase.ConfirmConsensus?
    ensures var (t, epoch, rest) := (FsmStep(net, site, s, w), EpochOf(net, w.start),
            net.period - Elapsed(net, w.start));
            && t.effect == Quiet && t.s.fetches == s.fetches
            && t.s.genesisEpoch == s.genesisEpoch && t.s.priorSrv == s.priorSrv
            && (if Add64(epoch, 1) in s.documents
                then t.s.phase.DescriptorSend? && t.s.votingEpoch == Add64(s.votingEpoch, 1)
                     && t.sleep == rest + net.period / 8 + w.jitter
                else t.s.phase.Bootstrap? && t.s.votingEpoch == Add64(epoch, 2) && t.sleep == rest)
  {
    hide EpochOf, Elapsed;
  }

  // --- the vote

  /** The document that a vote made of the list `ds` is, field by field. */
  ghost predicate IsVote(net: Network, s: State, ds: seq<MixDescriptor>, doc: Document) {
    var (before, rng) := (Sub64(s.votingEpoch, 1), net.reader(Zeros()));
    && Plain(net, doc) && doc.epoch == s.votingEpoch
    && doc.gateways == Gateways(ds) && doc.services == Services(ds)
    && net.layers > 0 && doc.nodesPerLayer == |Mixes(ds)| / net.layers
    && if before in s.documents
       then
         && doc.genesisEpoch == s.documents[before].genesisEpoch
         && NextTopology(Mixes(ds), s.documents[before].topology, net.layers, rng) == Some(doc.topology)
       else
         doc.genesisEpoch == s.votingEpoch && RandomTopology(Mixes(ds), net.layers, rng) == Some(doc.topology)
  }

  /** The document of a vote as it is computed, after the genesis has been taken over. */
  ghost function Made(net: Network, s: State, ds: seq<MixDescriptor>): Option<Document> {
    match MakeDocument(net, s.votingEpoch, s.genesisEpoch, Cached(s), ds, [], net.parameters, Zeros())
    case None => None
    case Some(doc) => Some(doc.(version := DOCUMENT_VERSION))
  }

  lemma MadeIsVote(net: Network, s: State, ds: seq<MixDescriptor>, doc: Document)
    ensures Made(net, Recall(net, s), ds) == Some(doc) <==> IsVote(net, s, ds, doc)
  {
    hide NextTopology, RandomTopology, Recall, Gateways, Services, Mixes, Zeros;
    RecallCached(net, s);
  }

  lemma MadeOrNone(net: Network, s: State, ds: seq<MixDescriptor>)
    ensures Made(net, Recall(net, s), ds).None? <==> forall doc :: !IsVote(net, s, ds, doc)
  {
    hide Made, Recall, IsVote;
    var made := Made(net, Recall(net, s), ds);
    forall doc ensures made == Some(doc) <==> IsVote(net, s, ds, doc) {
      MadeIsVote(net, s, ds, doc);
    }
    if made.Some? {
      assert IsVote(net, s, ds, made.value);
    }
  }

  lemma VoteTurns(net: Network, s: State, later: nat, list: Option<seq<MixDescriptor>>)
    ensures var t := AtAcceptDescriptor(net, s, later, list);
            var made := match list case None => None case Some(ds) => Made(net, Recall(net, s), ds);
            && t.s == Recall(net, s).(phase := t.s.phase)
            && t.effect == (if made.Some? && net.wellFormed(made.value) then SubmitVote(made.value) else Quiet)
            && (if list.Some? && made.None? then t.s.phase.Crashed? && t.sleep == 0
                else t.s.phase.AcceptVote? && t.sleep == 2 * (net.period / 8) - later)
  {
    hide MakeDocument, Recall;
  }

  /** A vote is sent exactly if the list was read and the document made of it is well formed; whether or not, the phase
      is over, unless no document can be made. */
  lemma VoteWakeup(net: Network, site: Site, s: State, w: Wakeup)
    requires net.period > 0 && s.phase.AcceptDescriptor?
    ensures var t := FsmStep(net, site, s, w);
            && (t.effect.SubmitVote? || t.effect == Quiet)
            && (forall doc :: t.effect == SubmitVote(doc) <==>
                  w.list.Some? && IsVote(net, s, w.list.value, doc) && net.wellFormed(doc))
            && (t.s.phase.Crashed? <==> w.list.Some? && forall doc :: !IsVote(net, s, w.list.value, doc))
            && (!t.s.phase.Crashed?
               ==> t.s.phase.AcceptVote? && t.sleep == 2 * (net.period / 8) - Elapsed(net, w.later))
            && TakesOver(s, t.s)
  {
    hide EpochOf, Elapsed, AtAcceptDescriptor, Made, IsVote, Recall, TakesOver;
    var later := Elapsed(net, w.later);
    VoteTurns(net, s, later, w.list);
    RecallTakesOver(net, s, AtAcceptDescriptor(net, s, later, w.list).s, EpochOf(net, w.pruning));
    if w.list.Some? {
      MadeOrNone(net, s, w.list.value);
      forall doc ensures Made(net, Recall(net, s), w.list.value) == Some(doc) <==> IsVote(net, s, w.list.value, doc) {
        MadeIsVote(net, s, w.list.value, doc);
      }
    }
  }

  /** Genesis and prior shared randoms are those of the document of the epoch before, if that is cached. */
  ghost predicate TakesOver(s: State, s': State) {
    var before := Sub64(s.votingEpoch, 1);
    && s'.votingEpoch == s.votingEpoch && s'.fetches == s.fetches
    && if before in s.documents
       then s'.genesisEpoch == s.documents[before].genesisEpoch && s'.priorSrv == s.documents[before].priorSrv
       else s'.genesisEpoch == s.votingEpoch && s'.priorSrv == s.priorSrv
  }

  lemma RecallTakesOver(net: Network, s: State, s1: State, now: nat)
    requires s1 == Recall(net, s).(phase := s1.phase)
    ensures TakesOver(s, s1) && TakesOver(s, Prune(s1, now))
  {
  }

  /** In every run an authority that reads a list can make its document, and sends it if it is well formed. */
  lemma VoteOfRuns(net: Network, start: World, steps: seq<Step>, i: nat, w: Wakeup)
    requires net.period > 0 && net.layers > 0 && Initial(net, start) && Runs(net, start, steps)
    requires i < |After(net, start, steps).peers| && After(net, start, steps).peers[i].s.phase.AcceptDescriptor?
    requires WakeEnabled(net, After(net, start, steps).chain, After(net, start, steps).peers[i], w)
    ensures var p := After(net, start, steps).peers[i];
            var effect := FsmStep(net, p.site, p.s, w).effect;
            match w.list
            case None => effect == Quiet
            case Some(ds) =>
              exists doc :: IsVote(net, p.s, ds, doc)
                            && effect == if net.wellFormed(doc) then SubmitVote(doc) else Quiet
  {
    hide After, Runs, IsVote, FsmStep, PeerInv, TakesOver;
    PeerHolds(net, start, steps, i);
    var c, p := After(net, start, steps).chain, After(net, start, steps).peers[i];
    VoteWakeup(net, p.site, p.s, w);
    WakeHolds(net, c, p, w);
    if w.list.Some? {
      var doc :| IsVote(net, p.s, w.list.value, doc);
      OneVote(net, p.s, w.list.value, doc);
    }
  }

  lemma WakeHolds(net: Network, c: Chain, p: Peer, w: Wakeup)
    requires net.period > 0 && net.layers > 0 && ChainInv(net, c) && PeerInv(net, c, p) && WakeEnabled(net, c, p, w)
    ensures !FsmStep(net, p.site, p.s, w).s.phase.Crashed?
  {
    hide ChainInv;
    WakeKeeps(net, c, p, w);
  }

  lemma OneVote(net: Network, s: State, ds: seq<MixDescriptor>, doc: Document)
    requires IsVote(net, s, ds, doc)
    ensures forall other | IsVote(net, s, ds, other) :: other == doc
  {
    hide IsVote, Made, Recall;
    MadeIsVote(net, s, ds, doc);
    forall other | IsVote(net, s, ds, other) ensures other == doc {
      MadeIsVote(net, s, ds, other);
    }
  }

  /** Gateways, service nodes and mixes stand in a document in the order in which they were read, and are exactly those
      for which the test holds. */
  lemma CarvesInOrder(ds: seq<MixDescriptor>, keep: MixDescriptor -> bool)
    ensures Subsequence(Filter(ds, keep), ds)
    ensures forall d :: multiset(Filter(ds, keep))[d] == if keep(d) then multiset(ds)[d] else 0
  {
    hide Filter, Subsequence;
    FilterInOrder(ds, keep);
    forall d ensures multiset(Filter(ds, keep))[d] == if keep(d) then multiset(ds)[d] else 0 {
      FilterCount(ds, keep, d);
    }
  }

  lemma {:induction false} FilterInOrder(ds: seq<MixDescriptor>, keep: MixDescriptor -> bool)
    ensures Subsequence(Filter(ds, keep), ds)
  {
    if ds != [] {
      var front, last := ds[..|ds| - 1], ds[|ds| - 1];
      FilterInOrder(front, keep);
      SubsequenceSnoc(Filter(front, keep), front, last);
      assert ds == front + [last];
      assert Filter(front, keep) + [] == Filter(front, keep);
    }
  }

  lemma {:induction false} SubsequenceSnoc(a: seq<MixDescriptor>, b: seq<MixDescriptor>, d: MixDescriptor)
    requires Subsequence(a, b)
    ensures Subsequence(a, b + [d]) && Subsequence(a + [d], b + [d])
  {
    if b == [] {
      assert b + [d] == [d] && a + [d] == [d];
      assert Subsequence([], []) && [d][1..] == [];
    } else {
      assert (b + [d])[1..] == b[1..] + [d];
      if a == [] {
        SubsequenceSnoc([], b[1..], d);
        assert [] + [d] == [d];
      } else {
        assert (a + [d])[1..] == a[1..] + [d];
        if a[0] == b[0] && Subsequence(a[1..], b[1..]) {
          SubsequenceSnoc(a[1..], b[1..], d);
        } else {
          SubsequenceSnoc(a, b[1..], d);
        }
      }
    }
  }

  // --- what is kept

  /** The cached documents as a vote leaves them: the last one is given the network's scheme. */
  ghost predicate Renamed(net: Network, s: State, s': State) {
    var before := Sub64(s.votingEpoch, 1);
    s'.documents == if s.phase.AcceptDescriptor? && before in s.documents
                    then s.documents[before := s.documents[before].(scheme := net.scheme)] else s.documents
  }

  lemma PhaseKeeps(net: Network, site: Site, s: State, w: Wakeup, epoch: nat, elapsed: nat, later: nat)
    ensures var s' := Phased(net, site, s, w, epoch, elapsed, later).s;
            s'.disk == s.disk && s'.descriptors == s.descriptors && Renamed(net, s, s')
  {
    if s.phase.AcceptDescriptor? {
      hide Phased, AtAcceptDescriptor, Made, Recall;
      VoteTurns(net, s, later, w.list);
      RecallRenames(net, s);
      PhaseOfVote(net, site, s, w, epoch, elapsed, later);
    } else {
      OtherPhasesKeep(net, site, s, w, epoch, elapsed, later);
    }
  }

  lemma PhaseOfVote(net: Network, site: Site, s: State, w: Wakeup, epoch: nat, elapsed: nat, later: nat)
    requires s.phase.AcceptDescriptor?
    ensures Phased(net, site, s, w, epoch, elapsed, later) == AtAcceptDescriptor(net, s, later, w.list)
  {
    hide AtAcceptDescriptor;
  }

  lemma RecallRenames(net: Network, s: State)
    requires s.phase.AcceptDescriptor?
    ensures var s' := Recall(net, s);
            s'.disk == s.disk && s'.descriptors == s.descriptors && Renamed(net, s, s')
  {
  }

  lemma OtherPhasesKeep(net: Network, site: Site, s: State, w: Wakeup, epoch: nat, elapsed: nat, later: nat)
    requires !s.phase.AcceptDescriptor?
    ensures var s' := Phased(net, site, s, w, epoch, elapsed, later).s;
            s'.disk == s.disk && s'.descriptors == s.descriptors && s'.documents == s.documents
  {
    hide AtAcceptDescriptor;
  }

  /** A wakeup keeps exactly the documents and descriptors from three epochs before the time of pruning on, and leaves
      the disk alone. */
  lemma KeepsRecent(net: Network, site: Site, s: State, w: Wakeup, e: nat)
    requires net.period > 0 && !FsmStep(net, site, s, w).s.phase.Crashed?
    ensures var (s', recent) := (FsmStep(net, site, s, w).s, e >= Sub64(EpochOf(net, w.pruning), 3));
            var named := s.phase.AcceptDescriptor? && e == Sub64(s.votingEpoch, 1);
            && s'.disk == s.disk
            && (e in s'.descriptors <==> e in s.descriptors && recent)
            && (e in s'.descriptors ==> s'.descriptors[e] == s.descriptors[e])
            && (e in s'.documents <==> e in s.documents && recent)
            && (e in s'.documents ==>
                  s'.documents[e] == if named then s.documents[e].(scheme := net.scheme) else s.documents[e])
  {
    hide EpochOf, Elapsed, Phased;
    PhaseKeeps(net, site, s, w, EpochOf(net, w.start), Elapsed(net, w.start), Elapsed(net, w.later));
  }
}
