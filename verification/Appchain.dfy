/** Any number of authorities stepping against one write-once chain. */
module Appchain {
  import opened Prelude
  import opened Pki
  import opened Topology
  import opened TopologyFacts
  import opened Directory

  // --- the system

  /** A vote as sent to the chain, with the descriptor list its author had read (a history variable). */
  datatype Ballot = Ballot(doc: Document, list: seq<MixDescriptor>)

  /** The chain: registered descriptors by epoch, descriptors and votes on their way, and the adopted documents. */
  datatype Chain = Chain(
    registered: map<nat, seq<MixDescriptor>>,
    offered: set<(nat, MixDescriptor)>,
    ballots: set<Ballot>,
    docs: map<nat, Ballot>)

  /** An authority with its own clock; the state machine is due when the clock reaches `wakeAt`. */
  datatype Peer = Peer(site: Site, s: State, clock: nat, wakeAt: int)

  datatype World = World(chain: Chain, peers: seq<Peer>)

  datatype Step =
    | Wake(i: nat, w: Wakeup, delivered: bool) // the state machine runs; what it sends may get lost
    | Answer(i: nat, epoch: nat) // the chain answers a background fetch
    | Abandon(i: nat, f: Fetch) // a background fetch fails
    | Store(i: nat, f: Fetch, signs: bool) // an answered fetch gets the lock
    | Post(i: nat, up: Upload, node: Id, now: nat) // a node posts a descriptor
    | Restart(i: nat, disk: Disk, now: nat) // a process ends and starts again
    | Register(epoch: nat, d: MixDescriptor) // the chain registers an offered descriptor
    | Adopt(b: Ballot) // the chain adopts a vote

  ghost predicate Wakes(step: Step, i: nat) {
    step.Wake? && step.i == i
  }

  ghost predicate Restarts(step: Step, i: nat) {
    step.Restart? && step.i == i
  }

  ghost predicate Subsequence(a: seq<MixDescriptor>, b: seq<MixDescriptor>) {
    if a == [] then true
    else if b == [] then false
    else (a[0] == b[0] && Subsequence(a[1..], b[1..])) || Subsequence(a, b[1..])
  }

  function RegisteredAt(c: Chain, epoch: nat): seq<MixDescriptor> {
    if epoch in c.registered then c.registered[epoch] else []
  }

  /** Far enough from both ends of uint64 for the epoch arithmetic not to wrap around. */
  predicate Usual(epoch: nat) {
    3 <= epoch < WORD - 3
  }

  /** Wakeups may be late but not early, and the clock does not run backwards. What the vote reads is part of the
      chain's list, since single entries may fail to arrive. */
  ghost predicate WakeEnabled(net: Network, c: Chain, p: Peer, w: Wakeup)
    requires net.period > 0
  {
    && !p.s.phase.Crashed?
    && p.clock <= w.start && p.wakeAt <= w.start <= w.later <= w.pruning <= w.armed
    && Usual(EpochOf(net, w.start)) && Usual(EpochOf(net, w.armed))
    && w.jitter <= JitterMax(net)
    && (p.s.phase.AcceptDescriptor? && w.list.Some? ==> Subsequence(w.list.value, RegisteredAt(c, p.s.votingEpoch)))
  }

  /** A database that a process can start with. No document is in it, because none is ever written; its descriptors may
      be any. */
  predicate Usable(disk: Disk) {
    (disk.version.Some? ==> disk.version.value == VERSION) && disk.documents == map[]
  }

  ghost predicate Enabled(net: Network, world: World, step: Step)
    requires net.period > 0
  {
    var c, peers := world.chain, world.peers;
    match step
    case Wake(i, w, _) => i < |peers| && WakeEnabled(net, c, peers[i], w)
    case Answer(i, epoch) => i < |peers| && Asked(epoch) in peers[i].s.fetches && epoch in c.docs
    case Abandon(i, f) => i < |peers| && f in peers[i].s.fetches
    case Store(i, f, _) => i < |peers| && f in peers[i].s.fetches && f.Answered?
    case Post(i, _, _, now) => i < |peers| && peers[i].clock <= now
    case Restart(i, disk, now) => i < |peers| && peers[i].clock <= now && Usable(disk)
    case Register(epoch, d) =>
      // Redundant and late descriptors are rejected.
      && (epoch, d) in c.offered && epoch !in c.docs && d.id !in Ids(RegisteredAt(c, epoch))
    case Adopt(b) =>
      // There is one document for an epoch.
      && b in c.ballots && b.doc.epoch !in c.docs
  }

  function Deliver(c: Chain, effect: Effect, list: Option<seq<MixDescriptor>>): Chain {
    match effect
    case Quiet => c
    case SubmitDescriptor(d, epoch) => c.(offered := c.offered + {(epoch, d)})
    case SubmitVote(doc) => if list.Some? then c.(ballots := c.ballots + {Ballot(doc, list.value)}) else c
  }

  ghost function Woken(net: Network, p: Peer, w: Wakeup): Peer
    requires net.period > 0
  {
    var t := FsmStep(net, p.site, p.s, w);
    Peer(p.site, t.s, w.armed, w.armed + Max(0, t.sleep))
  }

  function Boot(net: Network, site: Site, disk: Disk, now: nat): Peer
    requires net.period > 0
  {
    Peer(site, Started(net, site, disk, EpochOf(net, now)), now, now)
  }

  ghost function Moved(net: Network, c: Chain, p: Peer, step: Step): Peer
    requires net.period > 0
    requires step.Answer? ==> step.epoch in c.docs
    requires step.Store? ==> step.f.Answered?
  {
    match step
    case Wake(_, w, _) => Woken(net, p, w)
    case Answer(_, epoch) =>
      p.(s := p.s.(fetches := p.s.fetches - multiset{Asked(epoch)} + multiset{Answered(epoch, c.docs[epoch].doc)}))
    case Abandon(_, f) => p.(s := p.s.(fetches := p.s.fetches - multiset{f}))
    case Store(_, f, signs) => p.(s := FinishFetch(p.site, p.s, f, signs))
    case Post(_, up, node, now) => p.(s := OnPostDescriptor(net, p.site, p.s, up, node, EpochOf(net, now)).0,
      clock := now)
    case Restart(_, disk, now) => Boot(net, p.site, disk, now)
    case _ => p
  }

  ghost function Apply(net: Network, world: World, step: Step): (world': World)
    requires net.period > 0 && Enabled(net, world, step)
    ensures |world'.peers| == |world.peers|
  {
    var c, peers := world.chain, world.peers;
    match step
    case Register(epoch, d) => world.(chain := c.(registered := c.registered[epoch := RegisteredAt(c, epoch) + [d]]))
    case Adopt(b) => world.(chain := c.(docs := c.docs[b.doc.epoch := b]))
    case Wake(i, w, delivered) =>
      var effect := FsmStep(net, peers[i].site, peers[i].s, w).effect;
      World(if delivered then Deliver(c, effect, w.list) else c, peers[i := Moved(net, c, peers[i], step)])
    case _ => world.(peers := peers[step.i := Moved(net, c, peers[step.i], step)])
  }

  /** Nothing registered, no votes, and every authority a new process. */
  ghost predicate Initial(net: Network, world: World)
    requires net.period > 0
  {
    && world.chain == Chain(map[], {}, {}, map[])
    && forall i | 0 <= i < |world.peers| ::
         var p := world.peers[i]; p == Boot(net, p.site, p.s.disk, p.clock) && Usable(p.s.disk)
  }

  ghost predicate Runs(net: Network, start: World, steps: seq<Step>)
    requires net.period > 0
    decreases |steps|, 0
  {
    steps == []
      || (Runs(net, start, steps[..|steps| - 1])
         && Enabled(net, After(net, start, steps[..|steps| - 1]), steps[|steps| - 1]))
  }

  ghost function After(net: Network, start: World, steps: seq<Step>): World
    requires net.period > 0 && Runs(net, start, steps)
    decreases |steps|, 1
  {
    if steps == [] then start else Apply(net, After(net, start, steps[..|steps| - 1]), steps[|steps| - 1])
  }

  // --- the invariant

  /** The same document up to who signed it. */
  ghost predicate Agrees(a: Document, b: Document) {
    a.(signatures := {}) == b.(signatures := {})
  }

  /** All epochs from the genesis of `doc` up to `doc` have a document with that genesis. */
  ghost predicate Rooted(c: Chain, doc: Document) {
    && doc.genesisEpoch <= doc.epoch
    && forall e | doc.genesisEpoch <= e < doc.epoch :: e in c.docs && c.docs[e].doc.genesisEpoch == doc.genesisEpoch
  }

  /** The document places the descriptors that its author read, each once, its layers are even, and nothing else in it
      depends on its author. */
  ghost predicate Places(net: Network, c: Chain, b: Ballot) {
    && Unique(b.list)
    && (forall d | d in b.list :: d in RegisteredAt(c, b.doc.epoch))
    && b.doc.gateways == Gateways(b.list) && b.doc.services == Services(b.list)
    && EvenPartition(b.doc.topology, Mixes(b.list), net.layers)
    && Plain(net, b.doc) && b.doc.nodesPerLayer == NodesPerLayer(net, b.list)
  }

  /** The parts of a vote that are the same for everybody. */
  ghost predicate Plain(net: Network, doc: Document) {
    && doc.version == DOCUMENT_VERSION && doc.parameters == net.parameters && doc.geometry == net.geometry
       && doc.scheme == net.scheme
    && doc.srv == Zeros() && doc.priorSrv == [Zeros()] && doc.replicas == []
    && doc.commits == map[] && doc.openings == map[] && doc.signatures == {}
  }

  /** The layering continues that of the epoch before, or is a random one where the genesis starts. */
  ghost predicate Continues(net: Network, c: Chain, b: Ballot) {
    var (e, rng) := (b.doc.epoch, net.reader(Zeros()));
    if b.doc.genesisEpoch < e
    then
      && e - 1 in c.docs
      && NextTopology(Mixes(b.list), c.docs[e - 1].doc.topology, net.layers, rng) == Some(b.doc.topology)
    else RandomTopology(Mixes(b.list), net.layers, rng) == Some(b.doc.topology)
  }

  ghost predicate GoodBallot(net: Network, c: Chain, b: Ballot) {
    Places(net, c, b) && Rooted(c, b.doc) && Continues(net, c, b) && net.wellFormed(b.doc)
  }

  ghost predicate AllGood(net: Network, c: Chain) {
    forall b | b in c.ballots :: GoodBallot(net, c, b)
  }

  ghost predicate ChainInv(net: Network, c: Chain) {
    && (forall e | e in c.registered :: Unique(c.registered[e]))
    && AllGood(net, c)
    && (forall e | e in c.docs :: c.docs[e] in c.ballots && c.docs[e].doc.epoch == e)
  }

  /** Cached and arriving documents are the chain's. */
  ghost predicate CacheInv(c: Chain, s: State) {
    && (forall e | e in s.documents :: e in c.docs && Agrees(s.documents[e], c.docs[e].doc))
    && (forall f | f in s.fetches && f.Answered? :: f.epoch in c.docs && Agrees(f.doc, c.docs[f.epoch].doc))
  }

  /** No cached or awaited epoch is beyond the voting epoch or beyond `top`. */
  ghost predicate KeyInv(s: State, top: nat) {
    && (forall e | e in s.documents :: e <= s.votingEpoch && e <= top)
    && (forall f | f in s.fetches :: f.epoch <= s.votingEpoch && f.epoch <= top)
  }

  /** Every descriptor is stored under its own identity and is authorized for its role. */
  ghost predicate TableInv(roster: Roster, t: Descriptors) {
    forall e, id | e in t && id in t[e] :: t[e][id].id == id && Authorized(roster, t[e][id])
  }

  /** The voting epoch is set once the bootstrap is over, and is never more than one ahead of `epoch`. */
  ghost predicate EpochInv(s: State, epoch: nat) {
    && !s.phase.Crashed?
    && s.votingEpoch <= epoch + 1
    && (!s.phase.Bootstrap? ==> s.votingEpoch >= 4)
  }

  /** The earliest time at which the state machine can run. */
  function Due(p: Peer): nat {
    if p.wakeAt <= p.clock then p.clock else p.wakeAt
  }

  ghost predicate PeerInv(net: Network, c: Chain, p: Peer)
    requires net.period > 0
  {
    && CacheInv(c, p.s)
    && KeyInv(p.s, EpochOf(net, p.clock) + 1)
    && EpochInv(p.s, EpochOf(net, Due(p)))
    && TableInv(p.site.roster, p.s.descriptors)
  }

  ghost predicate Inv(net: Network, world: World)
    requires net.period > 0
  {
    && ChainInv(net, world.chain)
    && forall i | 0 <= i < |world.peers| :: PeerInv(net, world.chain, world.peers[i])
  }
}
