/** One authority of the ZK-PKI as a value, and what each of its operations does to it. The class in
    Authority.dfy runs the operations step by step and is verified against these functions. */
module Directory {
  import opened Prelude
  import opened Pki
  import opened Topology

  // --- machine integers: epochs are uint64, and so are the operands below

  const WORD: nat := 0x1_0000_0000_0000_0000

  function Add64(a: nat, b: nat): nat {
    if a + b < WORD then a + b else a + b - WORD
  }

  function Sub64(a: nat, b: nat): nat {
    if b <= a then a - b else if b <= a + WORD then a + WORD - b else 0
  }

  // --- configuration

  const DOCUMENT_VERSION := "v0"

  /** What all authorities of a network share: the configuration and the library functions. */
  datatype Network = Network(
    period: nat,
    layers: nat,
    minNodesPerLayer: nat,
    parameters: Parameters,
    geometry: Bytes,
    scheme: string,
    reader: Bytes -> Rng, // the deterministic random reader seeded with a shared random value
    wellFormed: Document -> bool, // pki.IsDocumentWellFormed
    marshal: MixDescriptor -> Option<Bytes>,
    unmarshal: Bytes -> Option<MixDescriptor>,
    thresholdSigned: Bytes -> bool, // a threshold of the verifiers signed a persisted document
    parse: Bytes -> Option<Document>,
    openUpload: Bytes -> Option<MixDescriptor>, // the descriptor inside a signed upload
    keyParses: MixDescriptor -> bool,
    uploadSigned: Bytes -> bool)

  datatype Roster = Roster(mixes: set<Id>, gateways: map<Id, string>, services: map<Id, string>)

  /** What distinguishes one authority: its signing identity, the one node it serves and its roster. */
  datatype Site = Site(self: Id, node: Id, roster: Roster)

  /** The shared random value that votes are made with. */
  function Zeros(): Bytes { seq(32, _ => 0 as byte) }

  // --- the schedule

  function MixPublishDeadline(net: Network): nat { net.period / 8 }

  function DescriptorBlockDeadline(net: Network): nat { net.period * 2 / 8 }

  /** The value in force: a quarter of the period. */
  function AuthorityVoteDeadline(net: Network): nat { MixPublishDeadline(net) + net.period / 8 }

  function PublishConsensusDeadline(net: Network): nat {
    AuthorityVoteDeadline(net) + net.period / 8 + net.period / 8 + net.period / 8
  }

  function JitterMax(net: Network): nat { net.period / 16 }

  /** The number of whole periods before `t`; with `Elapsed` the quotient and the remainder (see `ClockReading`). */
  function EpochOf(net: Network, t: nat): nat
    requires net.period > 0
  {
    if t < net.period then 0 else 1 + EpochOf(net, t - net.period)
  }

  /** How much of its epoch has passed at `t`. */
  function Elapsed(net: Network, t: nat): (e: nat)
    requires net.period > 0
    ensures e < net.period
  {
    if t < net.period then t else Elapsed(net, t - net.period)
  }

  lemma {:induction false} ClockReading(net: Network, t: nat)
    requires net.period > 0
    ensures EpochOf(net, t) == t / net.period && Elapsed(net, t) == t % net.period
    ensures t == net.period * EpochOf(net, t) + Elapsed(net, t)
  {
    if t >= net.period {
      ClockReading(net, t - net.period);
      var q := EpochOf(net, t - net.period);
      assert net.period * (q + 1) == net.period * q + net.period;
    }
    DivUnique(t, net.period, EpochOf(net, t), Elapsed(net, t));
  }

  // --- documents

  function Gateways(ds: seq<MixDescriptor>): seq<MixDescriptor> { Filter(ds, IsGateway) }

  function Services(ds: seq<MixDescriptor>): seq<MixDescriptor> { Filter(ds, IsServiceNode) }

  function Mixes(ds: seq<MixDescriptor>): seq<MixDescriptor> { Filter(ds, IsMix) }

  ghost function ChooseTopology(net: Network, previous: Option<Document>, nodes: seq<MixDescriptor>,
                                srv: Bytes): Option<Layering> {
    match previous
    case Some(d) => NextTopology(nodes, d.topology, net.layers, net.reader(srv))
    case None => RandomTopology(nodes, net.layers, net.reader(srv))
  }

  /** The number that lambdaG is computed from. */
  function NodesPerLayer(net: Network, ds: seq<MixDescriptor>): nat
    requires net.layers > 0
  {
    |Mixes(ds)| / net.layers
  }

  /** The document made from a descriptor list; `None` for a panic. */
  ghost function MakeDocument(net: Network, epoch: nat, genesis: nat, previous: Option<Document>,
                              ds: seq<MixDescriptor>,
                              replicas: seq<ReplicaDescriptor>, parameters: Parameters, srv: Bytes): Option<Document>
  {
    var topology := ChooseTopology(net, previous, Mixes(ds), srv);
    if topology.None? || net.layers == 0 then None
    else Some(Document(epoch, genesis, parameters, NodesPerLayer(net, ds), topology.value, Gateways(ds), Services(ds),
                       replicas, srv, [srv], net.geometry, net.scheme, "", map[], map[], {}))
  }

  /** Whether the roster admits a descriptor in the role it claims. */
  predicate Authorized(roster: Roster, d: MixDescriptor) {
    if IsMix(d) then d.id in roster.mixes
    else if d.isGateway then d.id in roster.gateways && roster.gateways[d.id] == d.name
    else d.id in roster.services && roster.services[d.id] == d.name
  }

  // --- one authority

  datatype Phase = Bootstrap | DescriptorSend | AcceptDescriptor | AcceptVote | ConfirmConsensus
    | Crashed // the process has ended: a run-time panic, or a database that cannot be used

  /** A background fetch: asked for, or answered by the chain and waiting for the lock. */
  datatype Fetch = Asked(epoch: nat) | Answered(epoch: nat, doc: Document)

  type Descriptors = map<nat, map<Id, MixDescriptor>>

  /** The database: its version, if it has been initialized, the documents, and the descriptors by epoch and
      identity. */
  datatype Disk = Disk(version: Option<Bytes>, documents: map<nat, Bytes>, descriptors: map<nat, map<Id, Bytes>>)

  const VERSION: Bytes := [0]

  datatype State = State(
    phase: Phase,
    votingEpoch: nat,
    genesisEpoch: nat,
    priorSrv: seq<Bytes>,
    documents: map<nat, Document>,
    descriptors: Descriptors,
    disk: Disk,
    fetches: multiset<Fetch>)

  datatype Effect = Quiet | SubmitDescriptor(desc: MixDescriptor, epoch: nat) | SubmitVote(doc: Document)

  /** What a wakeup reads from its environment: the clock when it starts, when it computes the next wait, when it
      prunes and when it arms the timer; the jitter it draws; the chain's descriptor list, `None` for an error. */
  datatype Wakeup = Wakeup(start: nat, later: nat, pruning: nat, armed: nat, jitter: nat,
    list: Option<seq<MixDescriptor>>)

  function StartFetch(s: State, epoch: nat): (r: State)
    ensures r == s.(fetches := r.fetches)
  {
    if epoch in s.documents then s else s.(fetches := s.fetches + multiset{Asked(epoch)})
  }

  function Signed(site: Site, d: Document): Document {
    d.(version := DOCUMENT_VERSION, signatures := d.signatures + {site.self})
  }

  /** The end of a fetch: the answer is signed and cached, unless the epoch was filled meanwhile. */
  function FinishFetch(site: Site, s: State, f: Fetch, signs: bool): State
    requires f.Answered?
  {
    var rest := s.(fetches := s.fetches - multiset{f});
    if f.epoch in s.documents || !signs then rest
    else rest.(documents := s.documents[f.epoch := Signed(site, f.doc)])
  }

  function Prune(s: State, now: nat): State {
    var cut := Sub64(now, 3);
    s.(documents := map e | e in s.documents && e >= cut :: s.documents[e],
       descriptors := map e | e in s.descriptors && e >= cut :: s.descriptors[e])
  }

  datatype VoteOutcome = Voted(doc: Document) | Failed | Panicked

  function Cached(s: State): Option<Document> {
    var e := Sub64(s.votingEpoch, 1);
    if e in s.documents then Some(s.documents[e]) else None
  }

  /** What a vote takes over before it reads the chain: the genesis of the cached document of the epoch before,
      or the voting epoch itself as a new genesis. */
  function Recall(net: Network, s: State): State {
    var e := Sub64(s.votingEpoch, 1);
    match Cached(s)
    case Some(d) => s.(genesisEpoch := d.genesisEpoch, priorSrv := d.priorSrv,
                       documents := s.documents[e := d.(scheme := net.scheme)])
    case None => s.(genesisEpoch := s.votingEpoch)
  }

  ghost function GetVote(net: Network, s: State, list: Option<seq<MixDescriptor>>): (State, VoteOutcome) {
    var s' := Recall(net, s);
    (s', match list case None => Failed case Some(ds) => Outcome(net, s', ds))
  }

  ghost function Outcome(net: Network, s: State, ds: seq<MixDescriptor>): VoteOutcome {
    match MakeDocument(net, s.votingEpoch, s.genesisEpoch, Cached(s), ds, [], net.parameters, Zeros())
    case None => Panicked
    case Some(doc) =>
      if net.wellFormed(doc.(version := DOCUMENT_VERSION)) then Voted(doc.(version := DOCUMENT_VERSION)) else Failed
  }

  function OwnDescriptor(site: Site, s: State): Option<MixDescriptor> {
    if s.votingEpoch in s.descriptors && site.node in s.descriptors[s.votingEpoch]
    then Some(s.descriptors[s.votingEpoch][site.node]) else None
  }

  /** The result of one phase of the state machine: the new state, what is sent and how long to sleep. */
  datatype Turn = Turn(s: State, effect: Effect, sleep: int)

  function AtBootstrap(net: Network, s: State, epoch: nat, elapsed: nat, jitter: nat): Turn {
    var late := elapsed > MixPublishDeadline(net);
    Turn(StartFetch(StartFetch(Aimed(s, late, epoch), Sub64(epoch, 1)), epoch), Quiet,
         if late then net.period - elapsed else Max(0, MixPublishDeadline(net) - elapsed + jitter))
  }

  /** A bootstrap that comes too late aims at the epoch after the next one. */
  function Aimed(s: State, late: bool, epoch: nat): State {
    if late then s.(genesisEpoch := 0, votingEpoch := Add64(epoch, 2))
    else s.(genesisEpoch := 0, votingEpoch := Add64(epoch, 1), phase := DescriptorSend)
  }

  function AtDescriptorSend(net: Network, site: Site, s: State, elapsed: nat, jitter: nat): Turn {
    var effect := match OwnDescriptor(site, s) case Some(d) => SubmitDescriptor(d, s.votingEpoch) case None => Quiet;
    Turn(s.(phase := AcceptDescriptor), effect, DescriptorBlockDeadline(net) - elapsed + jitter)
  }

  ghost function AtAcceptDescriptor(net: Network, s: State, later: nat, list: Option<seq<MixDescriptor>>): Turn {
    var (s1, outcome) := GetVote(net, s, list);
    match outcome
    case Panicked => Turn(s1.(phase := Crashed), Quiet, 0)
    case Voted(doc) => Turn(s1.(phase := AcceptVote), SubmitVote(doc), AuthorityVoteDeadline(net) - later)
    case Failed => Turn(s1.(phase := AcceptVote), Quiet, AuthorityVoteDeadline(net) - later)
  }

  function AtAcceptVote(net: Network, s: State, later: nat): Turn {
    Turn(StartFetch(s, s.votingEpoch).(phase := ConfirmConsensus), Quiet, PublishConsensusDeadline(net) - later)
  }

  function AtConfirmConsensus(net: Network, s: State, epoch: nat, elapsed: nat, jitter: nat): Turn {
    if Add64(epoch, 1) in s.documents then
      Turn(s.(phase := DescriptorSend, votingEpoch := Add64(s.votingEpoch, 1)), Quiet,
           MixPublishDeadline(net) + (net.period - elapsed) + jitter)
    else
      Turn(s.(phase := Bootstrap, votingEpoch := Add64(epoch, 2)), Quiet, net.period - elapsed)
  }

  /** One phase, before pruning. The wakeup begins `elapsed` into `epoch`; when the next wait is computed, `later` of
      the then current epoch has passed. */
  ghost function Phased(net: Network, site: Site, s: State, w: Wakeup, epoch: nat, elapsed: nat, later: nat): Turn {
    match s.phase
    case Bootstrap => AtBootstrap(net, s, epoch, elapsed, w.jitter)
    case DescriptorSend => AtDescriptorSend(net, site, s, elapsed, w.jitter)
    case AcceptDescriptor => AtAcceptDescriptor(net, s, later, w.list)
    case AcceptVote => AtAcceptVote(net, s, later)
    case ConfirmConsensus => AtConfirmConsensus(net, s, epoch, elapsed, w.jitter)
    case Crashed => Turn(s, Quiet, 0)
  }

  /** A whole wakeup. */
  ghost function FsmStep(net: Network, site: Site, s: State, w: Wakeup): Turn
    requires net.period > 0
  {
    var t := Phased(net, site, s, w, EpochOf(net, w.start), Elapsed(net, w.start), Elapsed(net, w.later));
    if t.s.phase.Crashed? then t else t.(s := Prune(t.s, EpochOf(net, w.pruning)))
  }

  // --- descriptors

  datatype Upload = Upload(epoch: nat, payload: Bytes)

  datatype PostStatus = DescriptorOk | DescriptorInvalid | DescriptorConflict | DescriptorForbidden

  function Table(s: State, epoch: nat): map<Id, MixDescriptor> {
    if epoch in s.descriptors then s.descriptors[epoch] else map[]
  }

  function Saved(table: map<nat, map<Id, Bytes>>, epoch: nat, id: Id, raw: Bytes): map<nat, map<Id, Bytes>> {
    var bucket := if epoch in table then table[epoch] else map[];
    table[epoch := bucket[id := raw]]
  }

  /** An upload that passed its checks: stored if new and in time, accepted silently if unchanged. */
  function OnDescriptorUpload(net: Network, s: State, raw: Bytes, d: MixDescriptor, epoch: nat): (State, bool) {
    var s1 := s.(descriptors := s.descriptors[epoch := Table(s, epoch)]);
    if d.id in Table(s, epoch) then (s1, net.marshal(Table(s, epoch)[d.id]) == Some(raw))
    else if epoch in s.documents then (s1, false)
    else
      (s1.(descriptors := s.descriptors[epoch := Table(s, epoch)[d.id := d]],
           disk := s.disk.(descriptors := Saved(s.disk.descriptors, epoch, d.id, raw))), true)
  }

  function OnPostDescriptor(net: Network, site: Site, s: State, up: Upload, peer: Id, now: nat): (State, PostStatus) {
    if up.epoch != Sub64(now, 1) && up.epoch != now && up.epoch != Add64(now, 1) then (s, DescriptorInvalid)
    else match net.openUpload(up.payload)
      case None => (s, DescriptorInvalid)
      case Some(d) =>
        if d.id != peer || !net.keyParses(d) || !net.uploadSigned(up.payload) || !Authorized(site.roster, d)
        then (s, DescriptorForbidden)
        else
          var (s1, ok) := OnDescriptorUpload(net, s, up.payload, d, up.epoch);
          (s1, if ok then DescriptorOk else DescriptorConflict)
  }

  /** Which persisted entries of one epoch come back: those that parse, are stored under their own identity and are
      authorized. */
  function Readable(net: Network, roster: Roster, saved: map<Id, Bytes>): map<Id, MixDescriptor> {
    map id | id in saved && Restorable(net, roster, id, saved[id]) :: net.unmarshal(saved[id]).value
  }

  predicate Restorable(net: Network, roster: Roster, id: Id, raw: Bytes) {
    var d := net.unmarshal(raw);
    d.Some? && d.value.id == id && Authorized(roster, d.value)
  }

  function RestoredEpoch(net: Network, roster: Roster, disk: Disk, epoch: nat): map<Id, MixDescriptor> {
    if epoch in disk.descriptors then Readable(net, roster, disk.descriptors[epoch]) else map[]
  }

  /** The persisted document of an epoch, if it parses and is for that epoch. */
  function RestoredDocument(net: Network, disk: Disk, epoch: nat): Option<Document> {
    if epoch !in disk.documents then None
    else
      var doc := net.parse(disk.documents[epoch]);
      if doc.Some? && doc.value.epoch == epoch then doc else None
  }

  datatype Restoration = Restoration(documents: map<nat, Document>, descriptors: Descriptors)

  function RestoreEpoch(net: Network, roster: Roster, disk: Disk, epoch: nat, r: Restoration): Restoration {
    var doc, entries := RestoredDocument(net, disk, epoch), RestoredEpoch(net, roster, disk, epoch);
    Restoration(if doc.Some? then r.documents[epoch := doc.value] else r.documents,
                if entries == map[] then r.descriptors else r.descriptors[epoch := entries])
  }

  predicate BadlySigned(net: Network, disk: Disk, epoch: nat) {
    epoch in disk.documents && !net.thresholdSigned(disk.documents[epoch])
  }

  /** Restores epoch by epoch; a document without enough signatures ends it, also for the descriptors. */
  function RestoreFrom(net: Network, roster: Roster, disk: Disk, epochs: seq<nat>, r: Restoration): Restoration {
    if epochs == [] || BadlySigned(net, disk, epochs[0]) then r
    else RestoreFrom(net, roster, disk, epochs[1..], RestoreEpoch(net, roster, disk, epochs[0], r))
  }

  function Around(now: nat): seq<nat> {
    [Sub64(now, 1), now, Add64(now, 1)]
  }

  /** What comes back from a database of this version; a new one has nothing. */
  function Restore(net: Network, roster: Roster, disk: Disk, now: nat): Restoration {
    if disk.version != Some(VERSION) then Restoration(map[], map[])
    else RestoreFrom(net, roster, disk, Around(now), Restoration(map[], map[]))
  }

  /** The epochs up to position `k` have no document that lacks signatures. */
  predicate Reached(net: Network, disk: Disk, epochs: seq<nat>, k: nat)
    requires k < |epochs|
  {
    forall j | 0 <= j <= k :: !BadlySigned(net, disk, epochs[j])
  }

  /** Exactly which documents come back: those that parse and are for their epoch, before the first epoch whose
      document lacks signatures. */
  lemma {:induction false} RestoresExactly(net: Network, roster: Roster, disk: Disk, epochs: seq<nat>, r: Restoration,
                                           e: nat)
    ensures var documents := RestoreFrom(net, roster, disk, epochs, r).documents;
            var found := exists k :: 0 <= k < |epochs| && epochs[k] == e && Reached(net, disk, epochs, k);
            if found && RestoredDocument(net, disk, e).Some?
            then e in documents && documents[e] == RestoredDocument(net, disk, e).value
            else (e in documents <==> e in r.documents) && (e in documents ==> documents[e] == r.documents[e])
  {
    if epochs != [] && !BadlySigned(net, disk, epochs[0]) {
      var others := epochs[1..];
      RestoresExactly(net, roster, disk, others, RestoreEpoch(net, roster, disk, epochs[0], r), e);
      forall k | 0 <= k < |epochs|
        ensures Reached(net, disk, epochs, k) <==> k == 0 || Reached(net, disk, others, k - 1)
      {
        ReachedNext(net, disk, epochs, k);
      }
      if k :| 0 <= k < |others| && others[k] == e && Reached(net, disk, others, k) {
        assert epochs[k + 1] == e && Reached(net, disk, epochs, k + 1);
      }
      if k :| 0 < k < |epochs| && epochs[k] == e && Reached(net, disk, epochs, k) {
        assert others[k - 1] == e && Reached(net, disk, others, k - 1);
      }
    }
  }

  lemma ReachedNext(net: Network, disk: Disk, epochs: seq<nat>, k: nat)
    requires k < |epochs| && !BadlySigned(net, disk, epochs[0])
    ensures Reached(net, disk, epochs, k) <==> k == 0 || Reached(net, disk, epochs[1..], k - 1)
  {
    if k > 0 {
      if Reached(net, disk, epochs, k) {
        forall j | 0 <= j <= k - 1 ensures !BadlySigned(net, disk, epochs[1..][j]) {
          assert epochs[1..][j] == epochs[j + 1];
        }
      }
      if Reached(net, disk, epochs[1..], k - 1) {
        forall j | 0 <= j <= k ensures !BadlySigned(net, disk, epochs[j]) {
          assert j > 0 ==> epochs[1..][j - 1] == epochs[j];
        }
      }
    }
  }

  /** The state of a freshly started process: what its database still holds for three epochs. A database of another
      version ends the process. */
  function Started(net: Network, site: Site, disk: Disk, now: nat): State {
    var r := Restore(net, site.roster, disk, now);
    var blank := disk.version.None?;
    State(if blank || disk.version == Some(VERSION) then Bootstrap else Crashed, 0, 0, [], r.documents, r.descriptors,
          if blank then disk.(version := Some(VERSION)) else disk, multiset{})
  }
}
