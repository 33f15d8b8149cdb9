/** Every reachable state of the system satisfies the invariant. One lemma per kind of step. */
module Safety {
  import opened Prelude
  import opened Pki
  import opened Topology
  import opened TopologyFacts
  import opened Directory
  import opened Appchain

  // --- lists

  lemma {:induction false} SubsequenceUnique(a: seq<MixDescriptor>, b: seq<MixDescriptor>)
    requires Subsequence(a, b) && Unique(b)
    ensures Unique(a) && Ids(a) <= Ids(b) && forall d | d in a :: d in b
  {
    if a == [] {
      assert Ids(a) == {};
    } else {
      assert a == [a[0]] + a[1..] && b == [b[0]] + b[1..];
      UniqueAppend([b[0]], b[1..]);
      IdsAppend([b[0]], b[1..]);
      IdsOne(b[0]);
      if a[0] == b[0] && Subsequence(a[1..], b[1..]) {
        SubsequenceUnique(a[1..], b[1..]);
        UniqueAppend([a[0]], a[1..]);
        IdsAppend([a[0]], a[1..]);
      } else {
        SubsequenceUnique(a, b[1..]);
      }
    }
  }

  // --- time

  lemma EpochMonotone(net: Network, t: nat, u: nat)
    requires net.period > 0 && t <= u
    ensures EpochOf(net, t) <= EpochOf(net, u)
  {
    ClockReading(net, t);
    ClockReading(net, u);
    DivMonotone(t, u, net.period);
  }

  /** Waiting for the rest of the epoch ends in a later one. */
  lemma NextEpochStarts(net: Network, t: nat, u: nat)
    requires net.period > 0 && t + (net.period - Elapsed(net, t)) <= u
    ensures EpochOf(net, t) + 1 <= EpochOf(net, u)
  {
    var next := t + (net.period - Elapsed(net, t));
    ClockReading(net, t);
    DivUnique(next, net.period, EpochOf(net, t) + 1, 0);
    ClockReading(net, next);
    EpochMonotone(net, next, u);
  }

  // --- the chain only grows

  lemma RootedGrows(c: Chain, c': Chain, doc: Document)
    requires Rooted(c, doc) && forall e | e in c.docs :: e in c'.docs && c'.docs[e] == c.docs[e]
    ensures Rooted(c', doc)
  {
  }

  ghost predicate Grows(c: Chain, c': Chain) {
    && (forall e | e in c.docs :: e in c'.docs && c'.docs[e] == c.docs[e])
    && (forall e, d | d in RegisteredAt(c, e) :: d in RegisteredAt(c', e))
  }

  lemma BallotGrows(net: Network, c: Chain, c': Chain, b: Ballot)
    requires GoodBallot(net, c, b) && Grows(c, c')
    ensures GoodBallot(net, c', b)
  {
    RootedGrows(c, c', b.doc);
  }

  lemma PeerGrows(net: Network, c: Chain, c': Chain, p: Peer)
    requires net.period > 0 && PeerInv(net, c, p) && Grows(c, c')
    ensures PeerInv(net, c', p)
  {
  }

  // --- the vote

  /** The cached document of the epoch before is the chain's, so it is good. */
  lemma CachedFacts(net: Network, c: Chain, s: State) returns (b: Ballot)
    requires ChainInv(net, c) && CacheInv(c, s) && Cached(s).Some? && 1 <= s.votingEpoch < WORD
    ensures s.votingEpoch - 1 in c.docs && b == c.docs[s.votingEpoch - 1] && b.doc.epoch == s.votingEpoch - 1
    ensures GoodBallot(net, c, b)
    ensures Cached(s).value.topology == b.doc.topology && Cached(s).value.genesisEpoch == b.doc.genesisEpoch
  {
    hide Continues, Places, Rooted;
    var e := s.votingEpoch - 1;
    assert e in s.documents && Agrees(s.documents[e], c.docs[e].doc);
    b := c.docs[e];
    assert b in c.ballots;
  }

  lemma TopologyChosen(net: Network, c: Chain, s: State, ds: seq<MixDescriptor>, srv: Bytes)
    requires net.layers > 0 && ChainInv(net, c) && CacheInv(c, s) && 1 <= s.votingEpoch < WORD
    requires Unique(Mixes(ds))
    ensures var t := ChooseTopology(net, Cached(s), Mixes(ds), srv);
            t.Some? && EvenPartition(t.value, Mixes(ds), net.layers)
  {
    match Cached(s)
    case Some(d) =>
      var b := CachedFacts(net, c, s);
      NextTopologyEven(Mixes(ds), d.topology, net.layers, net.reader(srv));
    case None =>
      RandomTopologyEven(Mixes(ds), net.layers, net.reader(srv));
  }

  lemma RootedNext(c: Chain, before: Document, doc: Document)
    requires Rooted(c, before) && before.epoch in c.docs && c.docs[before.epoch].doc == before
    requires doc.epoch == before.epoch + 1 && doc.genesisEpoch == before.genesisEpoch
    ensures Rooted(c, doc)
  {
  }

  /** The genesis a vote takes over is rooted in the chain, and so is a vote that starts a new genesis. */
  lemma GenesisRooted(net: Network, c: Chain, s: State, doc: Document)
    requires ChainInv(net, c) && CacheInv(c, s) && 1 <= s.votingEpoch < WORD
    requires doc.epoch == s.votingEpoch
    requires doc.genesisEpoch == match Cached(s) case Some(d) => d.genesisEpoch case None => s.votingEpoch
    ensures Rooted(c, doc)
  {
    if Cached(s).Some? {
      var b := CachedFacts(net, c, s);
      RootedNext(c, b.doc, doc);
    }
  }

  /** Cached documents already name the network's scheme, so that a vote leaves them as they are. */
  lemma RecallKeeps(net: Network, c: Chain, s: State)
    requires ChainInv(net, c) && CacheInv(c, s)
    ensures var s' := Recall(net, s);
            && s' == s.(genesisEpoch := s'.genesisEpoch, priorSrv := s'.priorSrv)
            && s'.genesisEpoch == match Cached(s) case Some(d) => d.genesisEpoch case None => s.votingEpoch
  {
    if Cached(s).Some? {
      var e := Sub64(s.votingEpoch, 1);
      SchemeOf(net, c, s, e);
      SameScheme(net, s, e);
    }
  }

  lemma SchemeOf(net: Network, c: Chain, s: State, e: nat)
    requires ChainInv(net, c) && CacheInv(c, s) && e in s.documents
    ensures s.documents[e].scheme == net.scheme
  {
    assert c.docs[e] in c.ballots && GoodBallot(net, c, c.docs[e]);
  }

  lemma SameScheme(net: Network, s: State, e: nat)
    requires e in s.documents && s.documents[e].scheme == net.scheme
    ensures s.documents[e := s.documents[e].(scheme := net.scheme)] == s.documents
  {
  }

  /** A vote never panics and, if it is sent, is good. */
  lemma VoteIsGood(net: Network, c: Chain, s: State, list: Option<seq<MixDescriptor>>)
    requires net.layers > 0 && ChainInv(net, c) && CacheInv(c, s) && 1 <= s.votingEpoch < WORD
    requires list.Some? ==> Subsequence(list.value, RegisteredAt(c, s.votingEpoch))
    ensures var outcome := GetVote(net, s, list).1;
            && !outcome.Panicked?
            && (outcome.Voted? ==> list.Some? && GoodBallot(net, c, Ballot(outcome.doc, list.value)))
  {
    if list.Some? {
      RecallKeeps(net, c, s);
      ListIsUnique(net, c, s.votingEpoch, list.value);
      OutcomeIsGood(net, c, Recall(net, s), list.value);
      var outcome := GetVote(net, s, list).1;
      if outcome.Voted? {
        GenesisRooted(net, c, s, outcome.doc);
        VoteContinues(net, c, s, Ballot(outcome.doc, list.value));
      }
    }
  }

  lemma VoteContinues(net: Network, c: Chain, s: State, b: Ballot)
    requires ChainInv(net, c) && CacheInv(c, s) && 1 <= s.votingEpoch < WORD
    requires b.doc.epoch == s.votingEpoch
    requires b.doc.genesisEpoch == match Cached(s) case Some(d) => d.genesisEpoch case None => s.votingEpoch
    requires ChooseTopology(net, Cached(s), Mixes(b.list), Zeros()) == Some(b.doc.topology)
    ensures Continues(net, c, b)
  {
    hide NextTopology, RandomTopology, Places, ChainInv, CacheInv;
    if Cached(s).Some? {
      var former := CachedFacts(net, c, s);
    }
  }

  lemma ListIsUnique(net: Network, c: Chain, epoch: nat, ds: seq<MixDescriptor>)
    requires ChainInv(net, c) && Subsequence(ds, RegisteredAt(c, epoch))
    ensures Unique(ds) && Unique(Mixes(ds)) && forall d | d in ds :: d in RegisteredAt(c, epoch)
  {
    assert Ids([]) == {};
    SubsequenceUnique(ds, RegisteredAt(c, epoch));
    FilterUnique(ds, IsMix);
  }

  lemma OutcomeIsGood(net: Network, c: Chain, s: State, ds: seq<MixDescriptor>)
    requires net.layers > 0 && ChainInv(net, c) && CacheInv(c, s) && 1 <= s.votingEpoch < WORD
    requires Unique(ds) && Unique(Mixes(ds)) && forall d | d in ds :: d in RegisteredAt(c, s.votingEpoch)
    ensures var outcome := Outcome(net, s, ds);
            && !outcome.Panicked?
            && (outcome.Voted? ==>
                && Places(net, c, Ballot(outcome.doc, ds))
                && ChooseTopology(net, Cached(s), Mixes(ds), Zeros()) == Some(outcome.doc.topology)
                && outcome.doc.epoch == s.votingEpoch && outcome.doc.genesisEpoch == s.genesisEpoch
                && net.wellFormed(outcome.doc))
  {
    TopologyChosen(net, c, s, ds, Zeros());
  }

  // --- one phase

  /** What every phase does to the epochs: the voting epoch does not go back, and is two ahead only while the phase
      waits for the next epoch; fetches stay in range and no document is added to the cache. */
  ghost predicate EpochsKept(net: Network, s: State, t: Turn, epoch: nat, elapsed: nat) {
    && s.votingEpoch <= t.s.votingEpoch <= epoch + 2
    && (t.s.votingEpoch <= epoch + 1 || t.sleep >= net.period - elapsed)
    && (!t.s.phase.Bootstrap? ==> t.s.votingEpoch >= 4)
    && t.s.documents.Keys == s.documents.Keys && t.s.descriptors == s.descriptors
    && KeyInv(t.s, epoch + 1)
  }

  lemma FetchKeys(s: State, e: nat, top: nat)
    requires KeyInv(s, top) && e <= top && e <= s.votingEpoch
    ensures KeyInv(StartFetch(s, e), top) && StartFetch(s, e) == s.(fetches := StartFetch(s, e).fetches)
  {
  }

  lemma BootstrapFetches(s: State, epoch: nat)
    requires KeyInv(s, epoch + 1) && epoch <= s.votingEpoch && Usual(epoch)
    ensures var t := StartFetch(StartFetch(s, Sub64(epoch, 1)), epoch);
            KeyInv(t, epoch + 1) && t == s.(fetches := t.fetches)
  {
    FetchKeys(s, Sub64(epoch, 1), epoch + 1);
    FetchKeys(StartFetch(s, Sub64(epoch, 1)), epoch, epoch + 1);
  }

  lemma WiderKeys(s: State, s': State, top: nat, top': nat)
    requires KeyInv(s, top) && top <= top' && s.votingEpoch <= s'.votingEpoch
    requires s'.documents == s.documents && s'.fetches == s.fetches
    ensures KeyInv(s', top')
  {
  }

  lemma BootstrapEpochs(net: Network, s: State, epoch: nat, elapsed: nat, jitter: nat, top: nat)
    requires s.phase.Bootstrap? && EpochInv(s, epoch) && KeyInv(s, top) && top <= epoch + 1 && Usual(epoch)
             && elapsed < net.period
    ensures EpochsKept(net, s, AtBootstrap(net, s, epoch, elapsed, jitter), epoch, elapsed)
  {
    var s1 := Aimed(s, elapsed > MixPublishDeadline(net), epoch);
    WiderKeys(s, s1, top, epoch + 1);
    BootstrapFetches(s1, epoch);
  }

  lemma VoteEpochs(net: Network, c: Chain, s: State, epoch: nat, elapsed: nat, later: nat,
                   list: Option<seq<MixDescriptor>>, top: nat)
    requires s.phase.AcceptDescriptor? && EpochInv(s, epoch) && KeyInv(s, top) && top <= epoch + 1
    requires ChainInv(net, c) && CacheInv(c, s)
    ensures EpochsKept(net, s, AtAcceptDescriptor(net, s, later, list), epoch, elapsed)
  {
    hide Recall, AtAcceptDescriptor, CacheInv, ChainInv;
    RecallKeeps(net, c, s);
    RecallTurn(net, s, later, list);
  }

  lemma RecallTurn(net: Network, s: State, later: nat, list: Option<seq<MixDescriptor>>)
    ensures var t := AtAcceptDescriptor(net, s, later, list);
            t.s == Recall(net, s).(phase := t.s.phase) && !t.s.phase.Bootstrap?
  {
    hide Recall, Outcome;
  }

  lemma AcceptVoteEpochs(net: Network, s: State, epoch: nat, elapsed: nat, later: nat, top: nat)
    requires s.phase.AcceptVote? && EpochInv(s, epoch) && KeyInv(s, top) && top <= epoch + 1
    ensures EpochsKept(net, s, AtAcceptVote(net, s, later), epoch, elapsed)
  {
    FetchKeys(s, s.votingEpoch, epoch + 1);
  }

  lemma PhasedEpochs(net: Network, c: Chain, site: Site, s: State, w: Wakeup, epoch: nat, elapsed: nat, later: nat,
                     top: nat)
    requires EpochInv(s, epoch) && KeyInv(s, top) && top <= epoch + 1 && Usual(epoch) && elapsed < net.period
             && ChainInv(net, c) && CacheInv(c, s)
    ensures EpochsKept(net, s, Phased(net, site, s, w, epoch, elapsed, later), epoch, elapsed)
  {
    hide ChainInv, CacheInv, AtBootstrap, AtAcceptDescriptor, AtAcceptVote;
    match s.phase
    case Bootstrap => BootstrapEpochs(net, s, epoch, elapsed, w.jitter, top);
    case DescriptorSend =>
    case AcceptDescriptor => VoteEpochs(net, c, s, epoch, elapsed, later, w.list, top);
    case AcceptVote => AcceptVoteEpochs(net, s, epoch, elapsed, later, top);
    case ConfirmConsensus =>
  }

  lemma FetchCache(c: Chain, s: State, e: nat)
    requires CacheInv(c, s)
    ensures CacheInv(c, StartFetch(s, e))
  {
  }

  /** What a phase leaves in the cache and sends to the chain is good. */
  ghost predicate CacheKept(net: Network, c: Chain, t: Turn, list: Option<seq<MixDescriptor>>) {
    && CacheInv(c, t.s) && !t.s.phase.Crashed?
    && (t.effect.SubmitVote? ==> list.Some? && GoodBallot(net, c, Ballot(t.effect.doc, list.value)))
  }

  lemma PhasedCache(net: Network, c: Chain, site: Site, s: State, w: Wakeup, epoch: nat, elapsed: nat, later: nat)
    requires net.layers > 0 && ChainInv(net, c) && CacheInv(c, s) && EpochInv(s, epoch) && Usual(epoch)
    requires s.phase.AcceptDescriptor? && w.list.Some? ==> Subsequence(w.list.value, RegisteredAt(c, s.votingEpoch))
    ensures CacheKept(net, c, Phased(net, site, s, w, epoch, elapsed, later), w.list)
  {
    hide CacheInv, ChainInv, CacheKept, AtBootstrap, AtDescriptorSend, AtAcceptDescriptor, AtAcceptVote,
      AtConfirmConsensus;
    match s.phase {
      case Bootstrap => BootstrapCache(net, c, s, epoch, elapsed, w.jitter, w.list);
      case AcceptDescriptor => VoteCache(net, c, s, later, w.list);
      case _ => OtherPhasesCache(net, c, site, s, w, epoch, elapsed, later);
    }
  }

  lemma OtherPhasesCache(net: Network, c: Chain, site: Site, s: State, w: Wakeup, epoch: nat, elapsed: nat, later: nat)
    requires CacheInv(c, s) && (s.phase.DescriptorSend? || s.phase.AcceptVote? || s.phase.ConfirmConsensus?)
    ensures CacheKept(net, c, Phased(net, site, s, w, epoch, elapsed, later), w.list)
  {
    hide AtBootstrap, AtAcceptDescriptor;
    FetchCache(c, s, s.votingEpoch);
  }

  lemma BootstrapCache(net: Network, c: Chain, s: State, epoch: nat, elapsed: nat, jitter: nat,
                       list: Option<seq<MixDescriptor>>)
    requires CacheInv(c, s) && s.phase.Bootstrap?
    ensures CacheKept(net, c, AtBootstrap(net, s, epoch, elapsed, jitter), list)
  {
    var s1 := Aimed(s, elapsed > MixPublishDeadline(net), epoch);
    FetchCache(c, s1, Sub64(epoch, 1));
    FetchCache(c, StartFetch(s1, Sub64(epoch, 1)), epoch);
  }

  lemma VoteCache(net: Network, c: Chain, s: State, later: nat, list: Option<seq<MixDescriptor>>)
    requires net.layers > 0 && ChainInv(net, c) && CacheInv(c, s) && 1 <= s.votingEpoch < WORD
    requires list.Some? ==> Subsequence(list.value, RegisteredAt(c, s.votingEpoch))
    ensures CacheKept(net, c, AtAcceptDescriptor(net, s, later, list), list)
  {
    RecallKeeps(net, c, s);
    VoteIsGood(net, c, s, list);
  }

  lemma PruneKeeps(c: Chain, roster: Roster, s: State, now: nat, top: nat)
    requires CacheInv(c, s) && KeyInv(s, top) && TableInv(roster, s.descriptors)
    ensures var s' := Prune(s, now);
            CacheInv(c, s') && KeyInv(s', top) && TableInv(roster, s'.descriptors)
            && s'.votingEpoch == s.votingEpoch && s'.phase == s.phase
  {
  }

  // --- the steps

  lemma WakeKeeps(net: Network, c: Chain, p: Peer, w: Wakeup)
    requires net.period > 0 && net.layers > 0 && ChainInv(net, c) && PeerInv(net, c, p) && WakeEnabled(net, c, p, w)
    ensures PeerInv(net, c, Woken(net, p, w))
    ensures var effect := FsmStep(net, p.site, p.s, w).effect;
            effect.SubmitVote? ==> w.list.Some? && GoodBallot(net, c, Ballot(effect.doc, w.list.value))
  {
    var epoch, elapsed, later := EpochOf(net, w.start), Elapsed(net, w.start), Elapsed(net, w.later);
    EpochMonotone(net, Due(p), w.start);
    EpochMonotone(net, p.clock, w.start);
    PhasedEpochs(net, c, p.site, p.s, w, epoch, elapsed, later, EpochOf(net, p.clock) + 1);
    PhasedCache(net, c, p.site, p.s, w, epoch, elapsed, later);
    var t := Phased(net, p.site, p.s, w, epoch, elapsed, later);
    PruneKeeps(c, p.site.roster, t.s, EpochOf(net, w.pruning), epoch + 1);
    WakeLater(net, w, Woken(net, p, w), t.sleep);
  }

  lemma WakeLater(net: Network, w: Wakeup, p': Peer, sleep: int)
    requires net.period > 0 && w.start <= w.armed && p'.clock == w.armed && p'.wakeAt == w.armed + Max(0, sleep)
    ensures EpochOf(net, w.start) <= EpochOf(net, p'.clock) <= EpochOf(net, Due(p'))
    ensures sleep >= net.period - Elapsed(net, w.start) ==> EpochOf(net, w.start) + 1 <= EpochOf(net, Due(p'))
  {
    EpochMonotone(net, w.start, w.armed);
    EpochMonotone(net, w.armed, Due(p'));
    if sleep >= net.period - Elapsed(net, w.start) {
      NextEpochStarts(net, w.start, Due(p'));
    }
  }

  // --- the other steps

  /** Steps of the background fetches leave the schedule and the tables alone. */
  lemma SameSchedule(net: Network, c: Chain, p: Peer, s': State)
    requires net.period > 0 && PeerInv(net, c, p)
    requires s' == p.s.(documents := s'.documents, fetches := s'.fetches)
    requires CacheInv(c, s') && KeyInv(s', EpochOf(net, p.clock) + 1)
    ensures PeerInv(net, c, p.(s := s'))
  {
    assert Due(p.(s := s')) == Due(p);
  }

  lemma AnswerKeeps(net: Network, c: Chain, p: Peer, epoch: nat)
    requires net.period > 0 && PeerInv(net, c, p) && Asked(epoch) in p.s.fetches && epoch in c.docs
    ensures PeerInv(net, c, Moved(net, c, p, Answer(0, epoch)))
  {
    AnswerState(c, p.s, epoch, EpochOf(net, p.clock) + 1);
    SameSchedule(net, c, p, Moved(net, c, p, Answer(0, epoch)).s);
  }

  lemma AnswerState(c: Chain, s: State, epoch: nat, top: nat)
    requires CacheInv(c, s) && KeyInv(s, top) && Asked(epoch) in s.fetches && epoch in c.docs
    ensures var fetches := s.fetches - multiset{Asked(epoch)} + multiset{Answered(epoch, c.docs[epoch].doc)};
            CacheInv(c, s.(fetches := fetches)) && KeyInv(s.(fetches := fetches), top)
  {
    assert Asked(epoch).epoch <= s.votingEpoch && Asked(epoch).epoch <= top;
  }

  lemma AbandonKeeps(net: Network, c: Chain, p: Peer, f: Fetch)
    requires net.period > 0 && PeerInv(net, c, p) && f in p.s.fetches
    ensures PeerInv(net, c, Moved(net, c, p, Abandon(0, f)))
  {
    SameSchedule(net, c, p, p.s.(fetches := p.s.fetches - multiset{f}));
  }

  lemma StoreKeeps(net: Network, c: Chain, p: Peer, f: Fetch, signs: bool)
    requires net.period > 0 && ChainInv(net, c) && PeerInv(net, c, p) && f in p.s.fetches && f.Answered?
    ensures PeerInv(net, c, Moved(net, c, p, Store(0, f, signs)))
  {
    hide PeerInv, CacheInv, KeyInv, ChainInv, Agrees, FinishFetch, EpochOf;
    PeerCache(net, c, p);
    AnswerAgrees(c, p.s, f);
    SignedAgrees(net, c, p.site, f);
    StoreState(c, p.site, p.s, f, signs, EpochOf(net, p.clock) + 1);
    StoreFrame(p.site, p.s, f, signs);
    SameSchedule(net, c, p, FinishFetch(p.site, p.s, f, signs));
  }

  lemma PeerCache(net: Network, c: Chain, p: Peer)
    requires net.period > 0 && PeerInv(net, c, p)
    ensures CacheInv(c, p.s) && KeyInv(p.s, EpochOf(net, p.clock) + 1)
  {
  }

  lemma AnswerAgrees(c: Chain, s: State, f: Fetch)
    requires CacheInv(c, s) && f in s.fetches && f.Answered?
    ensures f.epoch in c.docs && Agrees(f.doc, c.docs[f.epoch].doc)
  {
  }

  lemma StoreFrame(site: Site, s: State, f: Fetch, signs: bool)
    requires f.Answered?
    ensures var s' := FinishFetch(site, s, f, signs); s' == s.(documents := s'.documents, fetches := s'.fetches)
  {
  }

  lemma StoreState(c: Chain, site: Site, s: State, f: Fetch, signs: bool, top: nat)
    requires CacheInv(c, s) && KeyInv(s, top) && f in s.fetches && f.Answered?
    requires f.epoch in c.docs && Agrees(Signed(site, f.doc), c.docs[f.epoch].doc)
    ensures CacheInv(c, FinishFetch(site, s, f, signs)) && KeyInv(FinishFetch(site, s, f, signs), top)
  {
  }

  lemma SignedAgrees(net: Network, c: Chain, site: Site, f: Fetch)
    requires ChainInv(net, c) && f.Answered? && f.epoch in c.docs && Agrees(f.doc, c.docs[f.epoch].doc)
    ensures Agrees(Signed(site, f.doc), c.docs[f.epoch].doc)
  {
    assert c.docs[f.epoch] in c.ballots;
    assert GoodBallot(net, c, c.docs[f.epoch]);
  }

  lemma UploadKeeps(net: Network, roster: Roster, s: State, raw: Bytes, d: MixDescriptor, epoch: nat)
    requires TableInv(roster, s.descriptors) && Authorized(roster, d)
    ensures TableInv(roster, OnDescriptorUpload(net, s, raw, d, epoch).0.descriptors)
  {
  }

  lemma PostKeeps(net: Network, c: Chain, p: Peer, up: Upload, node: Id, now: nat)
    requires net.period > 0 && PeerInv(net, c, p) && p.clock <= now
    ensures PeerInv(net, c, Moved(net, c, p, Post(0, up, node, now)))
  {
    var s' := OnPostDescriptor(net, p.site, p.s, up, node, EpochOf(net, now)).0;
    EpochMonotone(net, p.clock, now);
    EpochMonotone(net, Due(p), Due(p.(clock := now)));
    PostTables(net, p, up, node, EpochOf(net, now));
    hide OnPostDescriptor, TableInv;
  }

  lemma PostTables(net: Network, p: Peer, up: Upload, node: Id, now: nat)
    requires TableInv(p.site.roster, p.s.descriptors)
    ensures var s' := OnPostDescriptor(net, p.site, p.s, up, node, now).0;
            s' == p.s.(descriptors := s'.descriptors, disk := s'.disk) && TableInv(p.site.roster, s'.descriptors)
  {
    var d := net.openUpload(up.payload);
    if d.Some? && Authorized(p.site.roster, d.value) {
      UploadKeeps(net, p.site.roster, p.s, up.payload, d.value, up.epoch);
    }
    hide TableInv;
    PostFrame(net, p, up, node, now);
  }

  lemma PostFrame(net: Network, p: Peer, up: Upload, node: Id, now: nat)
    ensures var s' := OnPostDescriptor(net, p.site, p.s, up, node, now).0;
            s' == p.s.(descriptors := s'.descriptors, disk := s'.disk)
  {
  }

  lemma BootKeeps(net: Network, c: Chain, site: Site, disk: Disk, now: nat)
    requires net.period > 0 && Usable(disk)
    ensures PeerInv(net, c, Boot(net, site, disk, now))
  {
    assert TableInv(site.roster, map[]);
    RestoredTables(net, site.roster, disk, Around(EpochOf(net, now)), Restoration(map[], map[]));
    hide RestoreFrom;
  }

  /** Restored descriptors are keyed and authorized; without saved documents none comes back. */
  lemma {:induction false} RestoredTables(net: Network, roster: Roster, disk: Disk, epochs: seq<nat>, r: Restoration)
    requires disk.documents == map[] && TableInv(roster, r.descriptors)
    ensures var r' := RestoreFrom(net, roster, disk, epochs, r);
            r'.documents == r.documents && TableInv(roster, r'.descriptors)
  {
    if epochs != [] {
      RestoredTables(net, roster, disk, epochs[1..], RestoreEpoch(net, roster, disk, epochs[0], r));
    }
  }

  lemma RegisterKeeps(net: Network, c: Chain, epoch: nat, d: MixDescriptor)
    requires ChainInv(net, c) && d.id !in Ids(RegisteredAt(c, epoch))
    ensures var c' := c.(registered := c.registered[epoch := RegisteredAt(c, epoch) + [d]]);
            ChainInv(net, c') && Grows(c, c')
  {
    hide GoodBallot;
    var c' := c.(registered := c.registered[epoch := RegisteredAt(c, epoch) + [d]]);
    assert Ids([]) == {};
    UniqueAppend(RegisteredAt(c, epoch), [d]);
    IdsOne(d);
    GoodGrows(net, c, c');
  }

  lemma GoodGrows(net: Network, c: Chain, c': Chain)
    requires AllGood(net, c) && Grows(c, c')
    ensures forall b | b in c.ballots :: GoodBallot(net, c', b)
  {
    forall b | b in c.ballots ensures GoodBallot(net, c', b) { BallotGrows(net, c, c', b); }
  }

  lemma AdoptKeeps(net: Network, c: Chain, b: Ballot)
    requires ChainInv(net, c) && b in c.ballots && b.doc.epoch !in c.docs
    ensures var c' := c.(docs := c.docs[b.doc.epoch := b]); ChainInv(net, c') && Grows(c, c')
  {
    hide GoodBallot;
    GoodGrows(net, c, c.(docs := c.docs[b.doc.epoch := b]));
  }

  lemma DeliverKeeps(net: Network, c: Chain, effect: Effect, list: Option<seq<MixDescriptor>>)
    requires ChainInv(net, c)
    requires effect.SubmitVote? ==> list.Some? && GoodBallot(net, c, Ballot(effect.doc, list.value))
    ensures ChainInv(net, Deliver(c, effect, list)) && Grows(c, Deliver(c, effect, list))
  {
    hide GoodBallot;
    var c' := Deliver(c, effect, list);
    GoodGrows(net, c, c');
    if effect.SubmitVote? {
      BallotGrows(net, c, c', Ballot(effect.doc, list.value));
    }
  }

  // --- all steps

  /** The invariant of a world whose chain has grown and in which at most one authority has moved. */
  lemma WorldKeeps(net: Network, world: World, c': Chain, i: nat, p': Peer)
    requires net.period > 0 && Inv(net, world) && ChainInv(net, c') && Grows(world.chain, c')
    requires i < |world.peers| && PeerInv(net, c', p')
    ensures Inv(net, World(c', world.peers[i := p']))
  {
    forall j | 0 <= j < |world.peers| && j != i ensures PeerInv(net, c', world.peers[j]) {
      PeerGrows(net, world.chain, c', world.peers[j]);
    }
  }

  lemma ChainStepKeeps(net: Network, world: World, c': Chain)
    requires net.period > 0 && Inv(net, world) && ChainInv(net, c') && Grows(world.chain, c')
    ensures Inv(net, world.(chain := c'))
  {
    forall j | 0 <= j < |world.peers| ensures PeerInv(net, c', world.peers[j]) {
      PeerGrows(net, world.chain, c', world.peers[j]);
    }
  }

  lemma WakeStepKeeps(net: Network, world: World, i: nat, w: Wakeup, delivered: bool)
    requires net.period > 0 && net.layers > 0 && Inv(net, world) && Enabled(net, world, Wake(i, w, delivered))
    ensures Inv(net, Apply(net, world, Wake(i, w, delivered)))
  {
    var c, p := world.chain, world.peers[i];
    var effect := FsmStep(net, p.site, p.s, w).effect;
    WakeKeeps(net, c, p, w);
    DeliverKeeps(net, c, effect, w.list);
    var c' := if delivered then Deliver(c, effect, w.list) else c;
    PeerGrows(net, c, c', Woken(net, p, w));
    WorldKeeps(net, world, c', i, Woken(net, p, w));
  }

  lemma FetchStepKeeps(net: Network, world: World, step: Step)
    requires net.period > 0 && Inv(net, world) && Enabled(net, world, step)
    requires step.Answer? || step.Abandon? || step.Store?
    ensures PeerInv(net, world.chain, Moved(net, world.chain, world.peers[step.i], step))
  {
    var c, p := world.chain, world.peers[step.i];
    match step
    case Answer(_, epoch) => AnswerKeeps(net, c, p, epoch);
    case Abandon(_, f) => AbandonKeeps(net, c, p, f);
    case Store(_, f, signs) => StoreKeeps(net, c, p, f, signs);
  }

  lemma StepKeeps(net: Network, world: World, step: Step)
    requires net.period > 0 && net.layers > 0 && Inv(net, world) && Enabled(net, world, step)
    ensures Inv(net, Apply(net, world, step))
  {
    var c, peers := world.chain, world.peers;
    match step
    case Wake(i, w, delivered) => WakeStepKeeps(net, world, i, w, delivered);
    case Register(epoch, d) =>
      RegisterKeeps(net, c, epoch, d);
      ChainStepKeeps(net, world, Apply(net, world, step).chain);
    case Adopt(b) =>
      AdoptKeeps(net, c, b);
      ChainStepKeeps(net, world, Apply(net, world, step).chain);
    case Post(i, up, node, now) =>
      PostKeeps(net, c, peers[i], up, node, now);
      WorldKeeps(net, world, c, i, Moved(net, c, peers[i], step));
    case Restart(i, disk, now) =>
      BootKeeps(net, c, peers[i].site, disk, now);
      WorldKeeps(net, world, c, i, Moved(net, c, peers[i], step));
    case _ =>
      FetchStepKeeps(net, world, step);
      WorldKeeps(net, world, c, step.i, Moved(net, c, peers[step.i], step));
  }

  /** Every reachable state satisfies the invariant. */
  lemma {:induction false} RunKeeps(net: Network, start: World, steps: seq<Step>)
    requires net.period > 0 && net.layers > 0 && Initial(net, start) && Runs(net, start, steps)
    ensures Inv(net, After(net, start, steps))
  {
    if steps == [] {
      forall i | 0 <= i < |start.peers| ensures PeerInv(net, start.chain, start.peers[i]) {
        BootKeeps(net, start.chain, start.peers[i].site, start.peers[i].s.disk, start.peers[i].clock);
      }
    } else {
      RunKeeps(net, start, steps[..|steps| - 1]);
      StepKeeps(net, After(net, start, steps[..|steps| - 1]), steps[|steps| - 1]);
    }
  }

  lemma {:induction false} SamePeers(net: Network, start: World, steps: seq<Step>)
    requires net.period > 0 && Runs(net, start, steps)
    ensures |After(net, start, steps).peers| == |start.peers|
  {
    if steps != [] {
      SamePeers(net, start, steps[..|steps| - 1]);
    }
  }

  lemma PeerHolds(net: Network, start: World, steps: seq<Step>, i: nat)
    requires net.period > 0 && net.layers > 0 && Initial(net, start) && Runs(net, start, steps)
    requires i < |After(net, start, steps).peers|
    ensures var world := After(net, start, steps);
            ChainInv(net, world.chain) && PeerInv(net, world.chain, world.peers[i])
  {
    hide PeerInv;
    RunKeeps(net, start, steps);
  }

  /** Only its own wakeups and restarts change the schedule of an authority. */
  lemma OtherStep(net: Network, world: World, step: Step, i: nat)
    requires net.period > 0 && Enabled(net, world, step) && i < |world.peers| && !Wakes(step, i) && !Restarts(step, i)
    ensures |Apply(net, world, step).peers| == |world.peers|
    ensures var (p, p') := (world.peers[i], Apply(net, world, step).peers[i]);
            p'.s.phase == p.s.phase && p'.s.votingEpoch == p.s.votingEpoch && p'.wakeAt == p.wakeAt
  {
  }

  /** A step moves at most the authority that it names. */
  lemma OwnMove(net: Network, world: World, step: Step, i: nat)
    requires net.period > 0 && Enabled(net, world, step) && i < |world.peers|
    ensures var moves := !step.Register? && !step.Adopt? && step.i == i;
            Apply(net, world, step).peers[i]
            == if moves then Moved(net, world.chain, world.peers[i], step) else world.peers[i]
  {
    hide Moved, FsmStep;
  }

  lemma OwnStep(net: Network, world: World, step: Step, i: nat)
    requires net.period > 0 && Enabled(net, world, step) && Wakes(step, i)
    ensures |Apply(net, world, step).peers| == |world.peers|
    ensures Apply(net, world, step).peers[i] == Woken(net, world.peers[i], step.w)
  {
  }
}
