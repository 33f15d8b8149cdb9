/** The schedule of one authority when its wakeups are punctual: which phase runs in which part of an epoch. */
module Schedule {
  import opened Prelude
  import opened Pki
  import opened Directory
  import opened Appchain
  import opened Safety
  import opened Guarantees

  /** A delay small against the period: sixteen of them, and rounding, fit in. */
  predicate Small(net: Network, d: nat) {
    16 * (d + 1) <= net.period
  }

  /** A wakeup that is at most `d` late and takes at most `d`, with a jitter of at most a sixteenth of the period. */
  predicate Timely(net: Network, p: Peer, w: Wakeup, d: nat) {
    && p.wakeAt <= w.start <= p.wakeAt + d
    && w.start <= w.later <= w.pruning <= w.armed <= w.start + d
    && w.jitter <= JitterMax(net)
  }

  /** The next wakeup of `p` is due in epoch `k`, in the part of it that belongs to its phase. */
  ghost predicate InStage(net: Network, p: Peer, k: nat, d: nat) {
    var at := p.wakeAt - net.period * k;
    match p.s.phase
    case Bootstrap => 0 <= at <= d
    case DescriptorSend =>
      p.s.votingEpoch == k + 1 && MixPublishDeadline(net) <= at <= MixPublishDeadline(net) + JitterMax(net) + d
    case AcceptDescriptor =>
      p.s.votingEpoch == k + 1
        && DescriptorBlockDeadline(net) <= at <= DescriptorBlockDeadline(net) + JitterMax(net) + d
    case AcceptVote =>
      p.s.votingEpoch == k + 1
        && DescriptorBlockDeadline(net) <= at <= DescriptorBlockDeadline(net) + JitterMax(net) + 3 * d
    case ConfirmConsensus =>
      p.s.votingEpoch == k + 1 && PublishConsensusDeadline(net) <= at <= PublishConsensusDeadline(net) + d
    case Crashed => false
  }

  /** Reading the clock `e` into epoch `k`. */
  lemma ReadClock(net: Network, t: nat, k: nat, e: nat)
    requires net.period > 0 && t == net.period * k + e && e < net.period
    ensures EpochOf(net, t) == k && Elapsed(net, t) == e
  {
    ClockReading(net, t);
    DivUnique(t, net.period, k, e);
  }

  /** A punctual wakeup runs in the window of its phase. */
  lemma StageWindow(net: Network, p: Peer, w: Wakeup, k: nat, d: nat) returns (e: nat, f: nat)
    requires Small(net, d) && InStage(net, p, k, d) && Timely(net, p, w, d)
    ensures w.start == net.period * k + e && w.later == net.period * k + f && e <= f <= e + d < net.period
    ensures EpochOf(net, w.start) == k && Elapsed(net, w.start) == e && Elapsed(net, w.later) == f
    ensures var at := p.wakeAt - net.period * k; at <= e <= at + d
  {
    e, f := w.start - net.period * k, w.later - net.period * k;
    ReadClock(net, w.start, k, e);
    ReadClock(net, w.later, k, f);
  }

  /** What a wakeup leaves, in terms of its phase. */
  lemma WokenTurn(net: Network, p: Peer, w: Wakeup, k: nat, e: nat, f: nat)
    requires net.period > 0 && EpochOf(net, w.start) == k && Elapsed(net, w.start) == e && Elapsed(net, w.later) == f
    ensures var (p', t) := (Woken(net, p, w), Phased(net, p.site, p.s, w, k, e, f));
            && p'.s.phase == t.s.phase && p'.s.votingEpoch == t.s.votingEpoch
            && p'.wakeAt == w.armed + Max(0, t.sleep)
  {
    hide Phased, EpochOf, Elapsed;
  }

  lemma BootstrapTurn(net: Network, s: State, k: nat, e: nat, jitter: nat)
    requires Usual(k)
    ensures var t := AtBootstrap(net, s, k, e, jitter);
            if e > MixPublishDeadline(net) then t.s.phase == s.phase && t.sleep == net.period - e
            else
              && t.s.phase.DescriptorSend? && t.s.votingEpoch == k + 1
              && t.sleep == MixPublishDeadline(net) - e + jitter
  {
  }

  lemma VoteTurn(net: Network, s: State, later: nat, list: Option<seq<MixDescriptor>>)
    ensures var t := AtAcceptDescriptor(net, s, later, list);
            t.s.phase.Crashed?
              || (t.s.phase.AcceptVote? && t.s.votingEpoch == s.votingEpoch
                 && t.sleep == AuthorityVoteDeadline(net) - later)
  {
    hide Outcome;
  }

  lemma AcceptVoteTurn(net: Network, s: State, later: nat)
    ensures var t := AtAcceptVote(net, s, later);
            t.s.phase.ConfirmConsensus? && t.s.votingEpoch == s.votingEpoch
              && t.sleep == PublishConsensusDeadline(net) - later
  {
  }

  lemma NextEpoch(net: Network, k: nat)
    ensures net.period * (k + 1) == net.period * k + net.period
  {
  }

  /** The phase that follows a punctual wakeup runs in its part of the same epoch, or of the next one after a
      confirmation; a failed confirmation rejoins at the start of the next epoch. */
  lemma StageStep(net: Network, p: Peer, w: Wakeup, k: nat, d: nat)
    requires Small(net, d) && InStage(net, p, k, d) && Timely(net, p, w, d) && Usual(k)
    requires !Woken(net, p, w).s.phase.Crashed?
    ensures EpochOf(net, w.start) == k
    ensures var p' := Woken(net, p, w);
            InStage(net, p', if p.s.phase.ConfirmConsensus? then k + 1 else k, d) && Follows(p.s.phase, p'.s.phase)
  {
    hide AtBootstrap, AtAcceptDescriptor, AtAcceptVote, Woken, EpochOf, Elapsed, FsmStep;
    var e, f := StageWindow(net, p, w, k, d);
    WokenTurn(net, p, w, k, e, f);
    NextEpoch(net, k);
    match p.s.phase
    case Bootstrap => BootstrapTurn(net, p.s, k, e, w.jitter);
    case AcceptDescriptor => VoteTurn(net, p.s, f, w.list);
    case AcceptVote => AcceptVoteTurn(net, p.s, f);
    case _ =>
  }

  predicate Follows(a: Phase, b: Phase) {
    match a
    case Bootstrap => b.DescriptorSend?
    case DescriptorSend => b.AcceptDescriptor?
    case AcceptDescriptor => b.AcceptVote?
    case AcceptVote => b.ConfirmConsensus?
    case ConfirmConsensus => b.DescriptorSend? || b.Bootstrap?
    case Crashed => false
  }

  // --- whole runs

  /** Every wakeup of authority `i` is punctual and its process lives throughout; the others may do as they please. */
  ghost predicate Punctual(net: Network, start: World, steps: seq<Step>, i: nat, d: nat)
    requires net.period > 0 && Runs(net, start, steps)
    decreases |steps|
  {
    steps == [] ||
    var front, last := steps[..|steps| - 1], steps[|steps| - 1];
    && Punctual(net, start, front, i, d) && !Restarts(last, i)
    && (Wakes(last, i) ==> Timely(net, After(net, start, front).peers[i], last.w, d))
  }

  /** How many wakeups of authority `i` in epoch `j` ran the phase `at`. */
  ghost function Count(net: Network, start: World, steps: seq<Step>, i: nat, at: Phase, j: nat): nat
    requires net.period > 0 && Runs(net, start, steps)
    decreases |steps|
  {
    if steps == [] then 0 else
      var front, last := steps[..|steps| - 1], steps[|steps| - 1];
      Count(net, start, front, i, at, j)
      + if Wakes(last, i) && After(net, start, front).peers[i].s.phase == at
        && EpochOf(net, last.w.start) == j then 1 else 0
  }

  /** The first epoch in which the authority takes part: that of its first wakeup, or the next one if that is late. */
  ghost function FirstStage(net: Network, steps: seq<Step>, i: nat): Option<nat>
    requires net.period > 0
    decreases |steps|
  {
    if steps == [] then None else
      var front, last := steps[..|steps| - 1], steps[|steps| - 1];
      if FirstStage(net, front, i).Some? || !Wakes(last, i) then FirstStage(net, front, i)
      else Some(EpochOf(net, last.w.start) + if Elapsed(net, last.w.start) > MixPublishDeadline(net) then 1 else 0)
  }

  /** Whether an authority whose next phase is `now` has run the phase `at` in the current epoch. */
  predicate Done(now: Phase, at: Phase) {
    match at
    case DescriptorSend => now.AcceptDescriptor? || now.AcceptVote? || now.ConfirmConsensus?
    case AcceptDescriptor => now.AcceptVote? || now.ConfirmConsensus?
    case _ => false
  }

  /** Once in every epoch from `first` to the one before `k`, and once in `k` if it is done. */
  function Expected(first: nat, k: nat, now: Phase, at: Phase, j: nat): nat {
    if first <= j < k || (j == k && Done(now, at)) then 1 else 0
  }

  ghost predicate Counted(net: Network, start: World, steps: seq<Step>, i: nat, first: nat, k: nat, now: Phase)
    requires net.period > 0 && Runs(net, start, steps)
  {
    && (forall j :: Count(net, start, steps, i, DescriptorSend, j) == Expected(first, k, now, DescriptorSend, j))
    && (forall j :: Count(net, start, steps, i, AcceptDescriptor, j) == Expected(first, k, now, AcceptDescriptor, j))
  }

  /** The first wakeup of a process may come at any time. */
  lemma FirstWake(net: Network, p: Peer, w: Wakeup, d: nat) returns (k: nat)
    requires Small(net, d) && p.s.phase.Bootstrap? && Timely(net, p, w, d) && Usual(EpochOf(net, w.start))
    ensures k == EpochOf(net, w.start) + if Elapsed(net, w.start) > MixPublishDeadline(net) then 1 else 0
    ensures var p' := Woken(net, p, w); InStage(net, p', k, d) && (p'.s.phase.Bootstrap? || p'.s.phase.DescriptorSend?)
  {
    hide AtBootstrap, Woken, EpochOf, Elapsed, FsmStep;
    var epoch, e := EpochOf(net, w.start), Elapsed(net, w.start);
    k := epoch + if e > MixPublishDeadline(net) then 1 else 0;
    ClockReading(net, w.start);
    WokenTurn(net, p, w, epoch, e, Elapsed(net, w.later));
    BootstrapTurn(net, p.s, epoch, e, w.jitter);
    NextEpoch(net, epoch);
  }

  /** What the runs keep: before its first wakeup an authority bootstraps; from then on it is in stage `k`. */
  ghost predicate Scheduled(net: Network, start: World, steps: seq<Step>, i: nat, k: nat, d: nat)
    requires net.period > 0 && Runs(net, start, steps) && i < |After(net, start, steps).peers|
  {
    var p := After(net, start, steps).peers[i];
    match FirstStage(net, steps, i)
    case None => p.s.phase.Bootstrap? && (forall at, j :: Count(net, start, steps, i, at, j) == 0)
      && WokenBy(net, steps, i, None)
    case Some(first) =>
      first <= k && InStage(net, p, k, d) && Counted(net, start, steps, i, first, k, p.s.phase)
        && WokenBy(net, steps, i, Some(k))
  }

  /** All wakeups of authority `i` are in epochs up to `last`; with `None` there are none. */
  ghost predicate WokenBy(net: Network, steps: seq<Step>, i: nat, last: Option<nat>)
    requires net.period > 0
  {
    forall m | 0 <= m < |steps| && Wakes(steps[m], i) :: last.Some? && EpochOf(net, steps[m].w.start) <= last.value
  }

  lemma WokenBySnoc(net: Network, steps: seq<Step>, i: nat, last: Option<nat>, last': Option<nat>)
    requires net.period > 0 && steps != [] && WokenBy(net, steps[..|steps| - 1], i, last)
    requires last.Some? ==> last'.Some? && last.value <= last'.value
    requires Wakes(steps[|steps| - 1], i) ==> last'.Some? && EpochOf(net, steps[|steps| - 1].w.start) <= last'.value
    ensures WokenBy(net, steps, i, last')
  {
    forall m | 0 <= m < |steps| && Wakes(steps[m], i) ensures last'.Some?
      && EpochOf(net, steps[m].w.start) <= last'.value {
      if m < |steps| - 1 {
        assert steps[..|steps| - 1][m] == steps[m];
      }
    }
  }

  lemma ExpectedStep(first: nat, k: nat, now: Phase, next: Phase, at: Phase, j: nat)
    requires Follows(now, next) && first <= k && (at.DescriptorSend? || at.AcceptDescriptor?)
    ensures Expected(first, if now.ConfirmConsensus? then k + 1 else k, next, at, j)
            == Expected(first, k, now, at, j) + if now == at && j == k then 1 else 0
  {
  }

  /** One more punctual wakeup of an authority that is in stage `k`. */
  lemma ScheduledWake(net: Network, start: World, steps: seq<Step>, i: nat, k: nat, d: nat) returns (k': nat)
    requires Small(net, d) && Runs(net, start, steps) && steps != []
    requires var (front, last) := (steps[..|steps| - 1], steps[|steps| - 1]);
             && Wakes(last, i) && Scheduled(net, start, front, i, k, d) && FirstStage(net, front, i).Some?
             && Timely(net, After(net, start, front).peers[i], last.w, d)
             && !After(net, start, steps).peers[i].s.phase.Crashed?
    ensures Scheduled(net, start, steps, i, k', d)
  {
    hide Woken, Apply, InStage, EpochOf;
    var front, last := steps[..|steps| - 1], steps[|steps| - 1];
    var p := After(net, start, front).peers[i];
    var first := FirstStage(net, front, i).value;
    OwnStep(net, After(net, start, front), last, i);
    var p' := After(net, start, steps).peers[i];
    assert Usual(EpochOf(net, last.w.start));
    InStageNow(net, p, last.w, k, d);
    StageStep(net, p, last.w, k, d);
    k' := if p.s.phase.ConfirmConsensus? then k + 1 else k;
    forall at: Phase, j | at.DescriptorSend? || at.AcceptDescriptor?
      ensures Count(net, start, steps, i, at, j) == Expected(first, k', p'.s.phase, at, j)
    {
      ExpectedStep(first, k, p.s.phase, p'.s.phase, at, j);
    }
    WokenBySnoc(net, steps, i, Some(k), Some(k'));
  }

  lemma InStageNow(net: Network, p: Peer, w: Wakeup, k: nat, d: nat)
    requires Small(net, d) && InStage(net, p, k, d) && Timely(net, p, w, d)
    ensures EpochOf(net, w.start) == k
  {
    var e, f := StageWindow(net, p, w, k, d);
  }

  lemma ScheduledFirst(net: Network, start: World, steps: seq<Step>, i: nat, d: nat) returns (k: nat)
    requires Small(net, d) && Runs(net, start, steps) && steps != []
    requires var (front, last) := (steps[..|steps| - 1], steps[|steps| - 1]);
             && Wakes(last, i) && Scheduled(net, start, front, i, 0, d) && FirstStage(net, front, i).None?
             && Timely(net, After(net, start, front).peers[i], last.w, d)
    ensures |After(net, start, steps).peers| == |After(net, start, steps[..|steps| - 1]).peers|
    ensures Scheduled(net, start, steps, i, k, d)
  {
    hide Woken, Apply, InStage, EpochOf, Elapsed;
    var front, last := steps[..|steps| - 1], steps[|steps| - 1];
    var p := After(net, start, front).peers[i];
    OwnStep(net, After(net, start, front), last, i);
    assert Usual(EpochOf(net, last.w.start));
    k := FirstWake(net, p, last.w, d);
    forall at: Phase, j | at.DescriptorSend? || at.AcceptDescriptor?
      ensures Count(net, start, steps, i, at, j) == 0
    {
      assert Count(net, start, front, i, at, j) == 0;
    }
    WokenBySnoc(net, steps, i, None, Some(k));
  }

  lemma ScheduledOther(net: Network, start: World, steps: seq<Step>, i: nat, k: nat, d: nat)
    requires net.period > 0 && Runs(net, start, steps) && steps != []
    requires i < |After(net, start, steps[..|steps| - 1]).peers|
    requires !Wakes(steps[|steps| - 1], i) && !Restarts(steps[|steps| - 1], i)
    requires Scheduled(net, start, steps[..|steps| - 1], i, k, d)
    ensures |After(net, start, steps).peers| == |After(net, start, steps[..|steps| - 1]).peers|
    ensures Scheduled(net, start, steps, i, k, d)
  {
    hide Apply, EpochOf;
    var front := steps[..|steps| - 1];
    OtherStep(net, After(net, start, front), steps[|steps| - 1], i);
    forall at: Phase, j ensures Count(net, start, steps, i, at, j) == Count(net, start, front, i, at, j) {
    }
    var last := if FirstStage(net, front, i).Some? then Some(k) else None;
    WokenBySnoc(net, steps, i, last, last);
  }

  /** By induction over the run: a punctual authority is always in the stage its counts say. */
  lemma {:induction false} RunScheduled(net: Network, start: World, steps: seq<Step>, i: nat, d: nat) returns (k: nat)
    requires Small(net, d) && net.layers > 0 && Initial(net, start) && Runs(net, start, steps)
    requires i < |start.peers| && Punctual(net, start, steps, i, d)
    ensures |After(net, start, steps).peers| == |start.peers|
    ensures Scheduled(net, start, steps, i, k, d) && (FirstStage(net, steps, i).None? ==> k == 0)
  {
    hide Apply, EpochOf, InStage, Counted, WokenBy, Scheduled;
    if steps == [] {
      k := 0;
      NothingScheduled(net, start, i, d);
    } else {
      var front, last := steps[..|steps| - 1], steps[|steps| - 1];
      k := RunScheduled(net, start, front, i, d);
      if !Wakes(last, i) {
        ScheduledOther(net, start, steps, i, k, d);
      } else if FirstStage(net, front, i).None? {
        k := ScheduledFirst(net, start, steps, i, d);
      } else {
        SamePeers(net, start, steps);
        NoAuthorityPanics(net, start, steps, i);
        k := ScheduledWake(net, start, steps, i, k, d);
      }
    }
  }

  lemma NothingScheduled(net: Network, start: World, i: nat, d: nat)
    requires net.period > 0 && Initial(net, start) && i < |start.peers|
    ensures Scheduled(net, start, [], i, 0, d)
  {
  }

  // --- theorems

  /** In a punctual run every epoch from the first stage on, once the authority has woken in a later one, has seen
      exactly one descriptor-send step and exactly one vote step of it, whether or not rounds failed in between. */
  lemma OneSendAndOneVoteInEveryEpoch(net: Network, start: World, steps: seq<Step>, i: nat, d: nat, j: nat, m: nat)
    requires Small(net, d) && net.layers > 0 && Initial(net, start) && Runs(net, start, steps)
    requires i < |start.peers| && Punctual(net, start, steps, i, d)
    requires FirstStage(net, steps, i).Some? && FirstStage(net, steps, i).value <= j
    requires m < |steps| && Wakes(steps[m], i) && j < EpochOf(net, steps[m].w.start)
    ensures Count(net, start, steps, i, DescriptorSend, j) == 1 && Count(net, start, steps, i, AcceptDescriptor, j) == 1
  {
    var k := RunScheduled(net, start, steps, i, d);
  }

  /** No epoch ever sees a second one, and none before the first stage sees any. */
  lemma NeverTwice(net: Network, start: World, steps: seq<Step>, i: nat, d: nat, j: nat)
    requires Small(net, d) && net.layers > 0 && Initial(net, start) && Runs(net, start, steps)
    requires i < |start.peers| && Punctual(net, start, steps, i, d)
    ensures Count(net, start, steps, i, DescriptorSend, j) <= 1 && Count(net, start, steps, i, AcceptDescriptor, j) <= 1
    ensures (FirstStage(net, steps, i).Some? ==> j < FirstStage(net, steps, i).value) ==>
            Count(net, start, steps, i, DescriptorSend, j) == 0 && Count(net, start, steps, i, AcceptDescriptor, j) == 0
  {
    var k := RunScheduled(net, start, steps, i, d);
  }

  /** The window of each phase, as a part of its epoch, when the wakeup is at most `d` late. */
  predicate InWindow(net: Network, phase: Phase, e: nat, d: nat) {
    match phase
    case Bootstrap => e <= 2 * d
    case DescriptorSend => MixPublishDeadline(net) <= e <= MixPublishDeadline(net) + JitterMax(net) + 2 * d
    case AcceptDescriptor => DescriptorBlockDeadline(net) <= e <= DescriptorBlockDeadline(net) + JitterMax(net) + 2 * d
    case AcceptVote => DescriptorBlockDeadline(net) <= e <= DescriptorBlockDeadline(net) + JitterMax(net) + 4 * d
    case ConfirmConsensus => PublishConsensusDeadline(net) <= e <= PublishConsensusDeadline(net) + 2 * d
    case Crashed => false
  }

  /** The windows in sixteenths of the period, up to the rounding of the deadlines and the delays. */
  lemma Sixteenths(net: Network, e: nat, d: nat)
    ensures InWindow(net, DescriptorSend, e, d) ==> 2 * net.period < 16 * (e + 1) && 16 * e <= 3 * net.period + 32 * d
    ensures InWindow(net, AcceptDescriptor, e, d) ==> 4 * net.period < 16 * (e + 1) && 16 * e <= 5 * net.period + 32 * d
    ensures InWindow(net, AcceptVote, e, d) ==> 4 * net.period < 16 * (e + 1) && 16 * e <= 5 * net.period + 64 * d
    ensures InWindow(net, ConfirmConsensus, e, d)
            ==> 10 * net.period < 16 * (e + 5) && 16 * e <= 10 * net.period + 32 * d
  {
  }

  /** After the first, every punctual wakeup runs in the window of its phase and for the next epoch, and is followed by
      the next phase; a round that failed rejoins at the start of the next epoch. */
  lemma PunctualWakeup(net: Network, start: World, steps: seq<Step>, i: nat, d: nat, w: Wakeup)
    requires Small(net, d) && net.layers > 0 && Initial(net, start) && Runs(net, start, steps)
    requires i < |start.peers| && Punctual(net, start, steps, i, d) && FirstStage(net, steps, i).Some?
    requires i < |After(net, start, steps).peers|
    requires WakeEnabled(net, After(net, start, steps).chain, After(net, start, steps).peers[i], w)
    requires Timely(net, After(net, start, steps).peers[i], w, d)
    ensures var (p, epoch) := (After(net, start, steps).peers[i], EpochOf(net, w.start));
            var p' := Woken(net, p, w);
            && InWindow(net, p.s.phase, Elapsed(net, w.start), d)
            && (!p.s.phase.Bootstrap? ==> p.s.votingEpoch == epoch + 1)
            && Follows(p.s.phase, p'.s.phase)
            && (p'.s.phase.Bootstrap? ==> net.period * (epoch + 1) <= p'.wakeAt <= net.period * (epoch + 1) + d)
  {
    hide Woken, WakeEnabled, InStage, InWindow, Follows, Counted, WokenBy, ChainInv, PeerInv, EpochOf, Elapsed, Apply,
      Runs, After, Punctual;
    var k := RunScheduled(net, start, steps, i, d);
    PeerHolds(net, start, steps, i);
    WindowNow(net, After(net, start, steps).chain, After(net, start, steps).peers[i], w, k, d);
  }

  lemma WindowNow(net: Network, c: Chain, p: Peer, w: Wakeup, k: nat, d: nat)
    requires Small(net, d) && net.layers > 0 && ChainInv(net, c) && PeerInv(net, c, p) && InStage(net, p, k, d)
    requires WakeEnabled(net, c, p, w) && Timely(net, p, w, d)
    ensures var (epoch, p') := (EpochOf(net, w.start), Woken(net, p, w));
            && InWindow(net, p.s.phase, Elapsed(net, w.start), d)
            && (!p.s.phase.Bootstrap? ==> p.s.votingEpoch == epoch + 1)
            && Follows(p.s.phase, p'.s.phase)
            && (p'.s.phase.Bootstrap? ==> net.period * (epoch + 1) <= p'.wakeAt <= net.period * (epoch + 1) + d)
  {
    hide Woken, EpochOf, Elapsed, ChainInv;
    var e, f := StageWindow(net, p, w, k, d);
    WakeKeeps(net, c, p, w);
    StageStep(net, p, w, k, d);
  }
}
