/** How the document of a round gets into the cache, and that this decides how the round ends. */
module Rounds {
  import opened Prelude
  import opened Pki
  import opened Directory
  import opened Appchain
  import opened Safety
  import opened Guarantees
  import opened Provenance
  import opened Schedule
  import opened Wakeups

  // --- what is cached

  /** A fetched document of epoch `e` gets the lock and is signed. */
  predicate Arrives(step: Step, i: nat, e: nat) {
    step.Store? && step.i == i && step.signs && step.f.epoch == e
  }

  /** Between two wakeups of an authority a document gets into its cache exactly by arriving. */
  lemma CachedStep(net: Network, world: World, step: Step, i: nat, e: nat)
    requires net.period > 0 && Enabled(net, world, step) && i < |world.peers| && !Wakes(step, i) && !Restarts(step, i)
    ensures var (p, p') := (world.peers[i], Apply(net, world, step).peers[i]);
            && (e in p'.s.documents <==> e in p.s.documents || Arrives(step, i, e))
            && p.clock <= p'.clock
  {
    hide OnPostDescriptor, Woken, Apply, Boot;
    OwnMove(net, world, step, i);
    if step.Post? && step.i == i {
      PostFrame(net, world.peers[i], step.up, step.node, EpochOf(net, step.now));
    }
  }

  /** The authority neither wakes nor restarts from step `m` on. */
  ghost predicate Sleeps(steps: seq<Step>, m: nat, i: nat) {
    forall j | m <= j < |steps| :: !Wakes(steps[j], i) && !Restarts(steps[j], i)
  }

  ghost predicate ArrivesIn(steps: seq<Step>, m: nat, i: nat, e: nat) {
    exists k :: m <= k < |steps| && Arrives(steps[k], i, e)
  }

  lemma {:induction false} CachedExactly(net: Network, start: World, steps: seq<Step>, m: nat, i: nat, e: nat)
    requires net.period > 0 && Runs(net, start, steps) && i < |start.peers| && m <= |steps| && Sleeps(steps, m, i)
    ensures Runs(net, start, steps[..m])
    ensures |After(net, start, steps).peers| == |After(net, start, steps[..m]).peers| == |start.peers|
    ensures var (p, p') := (After(net, start, steps[..m]).peers[i], After(net, start, steps).peers[i]);
            && (e in p'.s.documents <==> e in p.s.documents || ArrivesIn(steps, m, i, e))
            && p.clock <= p'.clock && p'.s.phase == p.s.phase && p'.s.votingEpoch == p.s.votingEpoch
            && p'.wakeAt == p.wakeAt
    decreases |steps|
  {
    hide Apply, Arrives, Enabled, Initial;
    SamePeers(net, start, steps);
    if m == |steps| {
      assert steps[..m] == steps;
    } else {
      var front, last := steps[..|steps| - 1], steps[|steps| - 1];
      assert front[..m] == steps[..m];
      assert forall j | 0 <= j < |front| :: front[j] == steps[j];
      CachedExactly(net, start, front, m, i, e);
      CachedStep(net, After(net, start, front), last, i, e);
      OtherStep(net, After(net, start, front), last, i);
    }
  }

  // --- what the cached documents are

  /** Cached documents are the chain's with the own signature, and answers are the chain's. */
  ghost predicate OwnSigned(c: Chain, p: Peer) {
    && (forall e | e in p.s.documents :: e in c.docs && p.s.documents[e] == c.docs[e].doc.(signatures := {p.site.self}))
    && (forall f | f in p.s.fetches && f.Answered? :: f.epoch in c.docs && f.doc == c.docs[f.epoch].doc)
  }

  ghost predicate AllOwnSigned(world: World) {
    forall i | 0 <= i < |world.peers| :: OwnSigned(world.chain, world.peers[i])
  }

  /** A wakeup only asks. */
  lemma WakeAsks(net: Network, site: Site, s: State, w: Wakeup, f: Fetch)
    requires net.period > 0 && !s.phase.Crashed? && f.Answered? && f in FsmStep(net, site, s, w).s.fetches
    ensures f in s.fetches
  {
    hide EpochOf, Elapsed, FsmStep, IsVote;
    match s.phase
    case Bootstrap => BootstrapWakeup(net, site, s, w);
    case DescriptorSend => SendWakeup(net, site, s, w);
    case AcceptDescriptor => VoteWakeup(net, site, s, w);
    case AcceptVote => FetchWakeup(net, site, s, w);
    case ConfirmConsensus => ConfirmWakeup(net, site, s, w);
  }

  lemma WakeSigned(net: Network, c: Chain, p: Peer, w: Wakeup)
    requires net.period > 0 && ChainInv(net, c) && CacheInv(c, p.s) && OwnSigned(c, p) && !p.s.phase.Crashed?
    ensures OwnSigned(c, Woken(net, p, w))
  {
    hide FsmStep, ChainInv, CacheInv;
    WakeFrame(net, c, p, w);
    forall f | f in Woken(net, p, w).s.fetches && f.Answered? ensures f in p.s.fetches {
      WakeAsks(net, p.site, p.s, w, f);
    }
  }

  lemma BootSigned(net: Network, c: Chain, site: Site, disk: Disk, now: nat)
    requires net.period > 0 && Usable(disk)
    ensures OwnSigned(c, Boot(net, site, disk, now))
  {
    hide RestoreFrom;
    assert TableInv(site.roster, map[]);
    RestoredTables(net, site.roster, disk, Around(EpochOf(net, now)), Restoration(map[], map[]));
  }

  lemma StoreSigned(net: Network, c: Chain, p: Peer, f: Fetch, signs: bool)
    requires ChainInv(net, c) && OwnSigned(c, p) && f in p.s.fetches && f.Answered?
    ensures OwnSigned(c, p.(s := FinishFetch(p.site, p.s, f, signs)))
  {
    hide Places, Rooted, Continues;
    assert GoodBallot(net, c, c.docs[f.epoch]);
    assert Plain(net, f.doc) by { PlainBallot(net, c, c.docs[f.epoch]); }
    assert Signed(p.site, f.doc) == f.doc.(signatures := {p.site.self});
  }

  lemma PlainBallot(net: Network, c: Chain, b: Ballot)
    requires GoodBallot(net, c, b)
    ensures Plain(net, b.doc)
  {
  }

  lemma MovedSigned(net: Network, world: World, step: Step)
    requires net.period > 0 && Inv(net, world) && Enabled(net, world, step) && !step.Register? && !step.Adopt?
    requires OwnSigned(world.chain, world.peers[step.i])
    ensures OwnSigned(world.chain, Moved(net, world.chain, world.peers[step.i], step))
  {
    hide FsmStep, OnPostDescriptor, FinishFetch, Inv, ChainInv, CacheInv, PeerInv, EpochOf, Started;
    var c, p := world.chain, world.peers[step.i];
    InvPeer(net, world, step.i);
    match step
    case Wake(_, w, _) => WakeSigned(net, c, p, w);
    case Store(_, f, signs) => StoreSigned(net, c, p, f, signs);
    case Post(_, up, node, now) => PostFrame(net, p, up, node, EpochOf(net, now));
    case Restart(_, disk, now) => BootSigned(net, c, p.site, disk, now);
    case _ =>
  }

  lemma StepSigned(net: Network, world: World, step: Step)
    requires net.period > 0 && net.layers > 0 && Inv(net, world) && Enabled(net, world, step) && AllOwnSigned(world)
    ensures AllOwnSigned(Apply(net, world, step))
  {
    hide Inv, OwnSigned;
    var world' := Apply(net, world, step);
    ChainKeepsDocs(net, world, step);
    if !step.Register? && !step.Adopt? {
      MovedSigned(net, world, step);
    }
    forall i | 0 <= i < |world'.peers| ensures OwnSigned(world'.chain, world'.peers[i]) {
      OwnMove(net, world, step, i);
      SignedGrows(world.chain, world'.chain, world'.peers[i]);
    }
  }

  ghost predicate KeepsDocs(c: Chain, c': Chain) {
    forall e | e in c.docs :: e in c'.docs && c'.docs[e] == c.docs[e]
  }

  lemma ChainKeepsDocs(net: Network, world: World, step: Step)
    requires net.period > 0 && Enabled(net, world, step)
    ensures KeepsDocs(world.chain, Apply(net, world, step).chain)
  {
    hide FsmStep, Moved;
  }

  lemma SignedGrows(c: Chain, c': Chain, p: Peer)
    requires KeepsDocs(c, c')
    ensures OwnSigned(c, p) ==> OwnSigned(c', p)
  {
  }

  /** In every run every authority holds the chain's documents, each with its own signature and no other. */
  lemma {:induction false} CachedAreSigned(net: Network, start: World, steps: seq<Step>)
    requires net.period > 0 && net.layers > 0 && Initial(net, start) && Runs(net, start, steps)
    ensures AllOwnSigned(After(net, start, steps))
  {
    hide Apply, Enabled, Inv, OwnSigned;
    if steps == [] {
      forall i | 0 <= i < |start.peers| ensures OwnSigned(start.chain, start.peers[i]) {
        BootSigned(net, start.chain, start.peers[i].site, start.peers[i].s.disk, start.peers[i].clock);
      }
    } else {
      var front := steps[..|steps| - 1];
      CachedAreSigned(net, start, front);
      RunKeeps(net, start, front);
      StepSigned(net, After(net, start, front), steps[|steps| - 1]);
    }
  }

  /** The end of a fetch: it is over, and its document is cached, signed by the authority too, exactly if the signing
      succeeds and the epoch has none. */
  lemma StoreExactly(net: Network, world: World, i: nat, f: Fetch, signs: bool, e: nat)
    requires net.period > 0 && Enabled(net, world, Store(i, f, signs))
    ensures var (p, p') := (world.peers[i], Apply(net, world, Store(i, f, signs)).peers[i]);
            && p' == p.(s := p.s.(fetches := p.s.fetches - multiset{f}, documents := p'.s.documents))
            && (e in p'.s.documents <==> e in p.s.documents || (signs && e == f.epoch))
            && (e in p.s.documents ==> p'.s.documents[e] == p.s.documents[e])
            && (e in p'.s.documents && e !in p.s.documents ==>
                  p'.s.documents[e]
                  == f.doc.(version := DOCUMENT_VERSION, signatures := f.doc.signatures + {p.site.self}))
  {
  }

  // --- the end of a round

  /** The accept-vote wakeup asks for the document and keeps it if it is cached. */
  lemma AskTurn(net: Network, p: Peer, w: Wakeup, top: nat)
    requires net.period > 0 && p.s.phase.AcceptVote?
    requires w.start <= w.pruning <= w.armed && Usual(EpochOf(net, w.start))
    ensures var (p', v) := (Woken(net, p, w), p.s.votingEpoch);
            && p'.s.phase.ConfirmConsensus? && p'.s.votingEpoch == v && p'.clock == w.armed
            && p'.s.fetches == p.s.fetches + (if v in p.s.documents then multiset{} else multiset{Asked(v)})
            && (w.armed <= top && v == EpochOf(net, top) + 1 ==> (v in p'.s.documents <==> v in p.s.documents))
  {
    hide FsmStep, EpochOf, Elapsed;
    FetchWakeup(net, p.site, p.s, w);
    KeepsRecent(net, p.site, p.s, w, p.s.votingEpoch);
    EpochMonotone(net, w.start, w.pruning);
    if w.armed <= top {
      EpochMonotone(net, w.pruning, top);
    }
  }

  lemma ConfirmTurn(net: Network, p: Peer, w: Wakeup)
    requires net.period > 0 && p.s.phase.ConfirmConsensus? && Usual(EpochOf(net, w.start))
    requires p.s.votingEpoch == EpochOf(net, w.start) + 1
    ensures var (p', v) := (Woken(net, p, w), p.s.votingEpoch);
            && p'.s.votingEpoch == v + 1
            && (if v in p.s.documents then p'.s.phase.DescriptorSend? else p'.s.phase.Bootstrap?)
  {
    hide FsmStep, EpochOf, Elapsed;
    ConfirmWakeup(net, p.site, p.s, w);
  }

  /** A punctual authority that is about to confirm votes for the next epoch. */
  lemma ConfirmEpoch(net: Network, start: World, steps: seq<Step>, i: nat, d: nat, w: Wakeup)
    requires Small(net, d) && net.layers > 0 && Initial(net, start) && Runs(net, start, steps)
    requires i < |start.peers| && Punctual(net, start, steps, i, d)
    requires i < |After(net, start, steps).peers| && After(net, start, steps).peers[i].s.phase.ConfirmConsensus?
    requires Timely(net, After(net, start, steps).peers[i], w, d)
    ensures After(net, start, steps).peers[i].s.votingEpoch == EpochOf(net, w.start) + 1
  {
    hide Timely, Punctual, EpochOf, After, Runs, Initial, Counted, WokenBy;
    var k := RunScheduled(net, start, steps, i, d);
    InStageNow(net, After(net, start, steps).peers[i], w, k, d);
  }

  /** The wakeup at step `m`. */
  lemma WakeAt(net: Network, start: World, steps: seq<Step>, m: nat, i: nat, e: nat)
    requires net.period > 0 && Runs(net, start, steps) && i < |start.peers|
    requires m < |steps| && Wakes(steps[m], i) && Sleeps(steps, m + 1, i)
    ensures Runs(net, start, steps[..m]) && Runs(net, start, steps[..m + 1])
    ensures |After(net, start, steps[..m]).peers| == |After(net, start, steps[..m + 1]).peers| == |start.peers|
    ensures WakeEnabled(net, After(net, start, steps[..m]).chain, After(net, start, steps[..m]).peers[i], steps[m].w)
    ensures After(net, start, steps[..m + 1]).peers[i] == Woken(net, After(net, start, steps[..m]).peers[i], steps[m].w)
  {
    hide Woken, WakeEnabled, Apply;
    CachedExactly(net, start, steps, m + 1, i, e);
    var front := steps[..m + 1];
    assert front[..|front| - 1] == steps[..m] && front[|front| - 1] == steps[m];
    SamePeers(net, start, steps[..m]);
    OwnStep(net, After(net, start, steps[..m]), steps[m], i);
  }

  /** A punctual authority that has run the accept-vote phase at step `m` has asked for the document of its voting epoch
      unless it is cached, and confirms the round exactly if that document was cached then or has arrived since; if not,
      it rejoins through the bootstrap. */
  lemma RoundConfirmedExactly(net: Network, start: World, steps: seq<Step>, m: nat, i: nat, d: nat, w: Wakeup)
    requires Small(net, d) && net.layers > 0 && Initial(net, start) && Runs(net, start, steps)
    requires i < |start.peers| && Punctual(net, start, steps, i, d)
    requires m < |steps| && Wakes(steps[m], i) && Sleeps(steps, m + 1, i)
    requires i < |After(net, start, steps).peers| && WakeEnabled(net, After(net, start, steps).chain,
               After(net, start, steps).peers[i], w) && Timely(net, After(net, start, steps).peers[i], w, d)
    ensures Runs(net, start, steps[..m]) && Runs(net, start, steps[..m + 1])
    ensures |After(net, start, steps[..m]).peers| == |After(net, start, steps[..m + 1]).peers| == |start.peers|
    ensures After(net, start, steps[..m]).peers[i].s.phase.AcceptVote? ==>
              var (former, asked) :=
                (After(net, start, steps[..m]).peers[i].s, After(net, start, steps[..m + 1]).peers[i].s);
              var p := After(net, start, steps).peers[i];
              var (p', v) := (Woken(net, p, w), former.votingEpoch);
              && asked.fetches == former.fetches + (if v in former.documents then multiset{} else multiset{Asked(v)})
              && p.s.phase.ConfirmConsensus? && p.s.votingEpoch == v == EpochOf(net, w.start) + 1
              && p'.s.votingEpoch == v + 1
              && (p'.s.phase.DescriptorSend? <==> v in former.documents || ArrivesIn(steps, m + 1, i, v))
              && (!p'.s.phase.DescriptorSend? ==> p'.s.phase.Bootstrap?)
  {
    hide Apply, Enabled, Initial, Woken, Timely, Punctual, ArrivesIn, EpochOf, After, Runs, Sleeps;
    WakeAt(net, start, steps, m, i, 0);
    var former, asked := After(net, start, steps[..m]).peers[i], After(net, start, steps[..m + 1]).peers[i];
    if former.s.phase.AcceptVote? {
      var v := former.s.votingEpoch;
      AskTurn(net, former, steps[m].w, w.start);
      CachedExactly(net, start, steps, m + 1, i, v);
      ConfirmEpoch(net, start, steps, i, d, w);
      ConfirmTurn(net, After(net, start, steps).peers[i], w);
    }
  }
}
