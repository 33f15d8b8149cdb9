/** Uploads of descriptors: which one gets which reply, what it leaves in the tables and on the disk, and where every
    stored descriptor comes from. */
module Posts {
  import opened Prelude
  import opened Pki
  import opened Directory
  import opened Appchain
  import opened Safety
  import opened Guarantees
  import opened Provenance
  import opened Restoring

  predicate Near(now: nat, epoch: nat) {
    epoch == Sub64(now, 1) || epoch == now || epoch == Add64(now, 1)
  }

  /** The upload is a descriptor of the peer itself that may be stored: its key parses, it is signed, and the roster
      admits it in its role. */
  ghost predicate Genuine(net: Network, roster: Roster, up: Upload, peer: Id, d: MixDescriptor) {
    && net.openUpload(up.payload) == Some(d) && d.id == peer
    && net.keyParses(d) && net.uploadSigned(up.payload) && Authorized(roster, d)
  }

  /** The reply to every upload. It is accepted if it is genuine and either the peer's entry for the epoch, marshalled,
      is the payload, or there is neither an entry nor a document. */
  lemma ReplyExactly(net: Network, site: Site, s: State, up: Upload, peer: Id, now: nat)
    ensures var (status, upload) := (OnPostDescriptor(net, site, s, up, peer, now).1, net.openUpload(up.payload));
            var (near, genuine) := (Near(now, up.epoch), upload.Some?
              && Genuine(net, site.roster, up, peer, upload.value));
            var stored := Entry(s.descriptors, up.epoch, peer);
            var fits :=
              if stored.Some? then net.marshal(stored.value) == Some(up.payload) else up.epoch !in s.documents;
            && (status == DescriptorInvalid <==> !near || upload.None?)
            && (status == DescriptorForbidden <==> near && upload.Some? && !genuine)
            && (status == DescriptorOk <==> near && genuine && fits)
            && (status == DescriptorConflict <==> near && genuine && !fits)
  {
  }

  /** The upload adds an entry: it is genuine, in time, and the first of its node. */
  ghost predicate Adds(net: Network, site: Site, s: State, up: Upload, peer: Id, now: nat, d: MixDescriptor) {
    && Near(now, up.epoch) && Genuine(net, site.roster, up, peer, d)
    && Entry(s.descriptors, up.epoch, peer).None? && up.epoch !in s.documents
  }

  lemma UploadStores(net: Network, s: State, raw: Bytes, d: MixDescriptor, epoch: nat, e: nat, id: Id)
    ensures var s' := OnDescriptorUpload(net, s, raw, d, epoch).0;
            var adds := Entry(s.descriptors, epoch, d.id).None? && epoch !in s.documents && e == epoch && id == d.id;
            && s' == s.(descriptors := s'.descriptors, disk := s.disk.(descriptors := s'.disk.descriptors))
            && Entry(s'.descriptors, e, id) == (if adds then Some(d) else Entry(s.descriptors, e, id))
            && Kept(s'.disk, e, id) == (if adds then Some(raw) else Kept(s.disk, e, id))
  {
  }

  lemma PostIs(net: Network, site: Site, s: State, up: Upload, peer: Id, now: nat)
    ensures var (s', upload) := (OnPostDescriptor(net, site, s, up, peer, now).0, net.openUpload(up.payload));
            s' == if Near(now, up.epoch) && upload.Some? && Genuine(net, site.roster, up, peer, upload.value)
                  then OnDescriptorUpload(net, s, up.payload, upload.value, up.epoch).0 else s
  {
    hide OnDescriptorUpload;
  }

  /** What an upload leaves: exactly a new one that is accepted adds an entry, to the table and, as it came, to the
      disk. */
  lemma StoresExactly(net: Network, site: Site, s: State, up: Upload, peer: Id, now: nat, e: nat, id: Id)
    ensures var s' := OnPostDescriptor(net, site, s, up, peer, now).0;
            var mine := e == up.epoch && id == peer;
            && s' == s.(descriptors := s'.descriptors, disk := s.disk.(descriptors := s'.disk.descriptors))
            && (forall d :: Entry(s'.descriptors, e, id) == Some(d) <==>
                  Entry(s.descriptors, e, id) == Some(d) || (mine && Adds(net, site, s, up, peer, now, d)))
            && (if mine && exists d :: Adds(net, site, s, up, peer, now, d)
                then Kept(s'.disk, e, id) == Some(up.payload) else Kept(s'.disk, e, id) == Kept(s.disk, e, id))
  {
    hide OnPostDescriptor, OnDescriptorUpload, Entry, Kept, Near, Genuine;
    PostIs(net, site, s, up, peer, now);
    var upload := net.openUpload(up.payload);
    OnlyThatOne(net, site, s, up, peer, now);
    if upload.Some? {
      UploadStores(net, s, up.payload, upload.value, up.epoch, e, id);
      GenuineIsOwn(net, site.roster, up, peer, upload.value);
    }
  }

  lemma GenuineIsOwn(net: Network, roster: Roster, up: Upload, peer: Id, d: MixDescriptor)
    ensures Genuine(net, roster, up, peer, d) ==> d.id == peer
  {
  }

  lemma OnlyThatOne(net: Network, site: Site, s: State, up: Upload, peer: Id, now: nat)
    ensures forall d | Adds(net, site, s, up, peer, now, d) :: net.openUpload(up.payload) == Some(d)
  {
  }

  // --- where stored descriptors come from

  /** The step is a genuine upload of `d` for epoch `e`, over the connection of the node. */
  ghost predicate Posted(net: Network, roster: Roster, step: Step, i: nat, e: nat, d: MixDescriptor)
    requires net.period > 0
  {
    step.Post? && step.i == i && step.up.epoch == e && Near(EpochOf(net, step.now), e)
      && Genuine(net, roster, step.up, step.node, d)
  }

  ghost predicate PostedIn(net: Network, roster: Roster, steps: seq<Step>, m: nat, i: nat, e: nat, d: MixDescriptor)
    requires net.period > 0
  {
    exists k :: m <= k < |steps| && Posted(net, roster, steps[k], i, e, d)
  }

  lemma EntryStep(net: Network, world: World, step: Step, i: nat, e: nat, d: MixDescriptor)
    requires net.period > 0 && Inv(net, world) && Enabled(net, world, step) && i < |world.peers| && !Restarts(step, i)
    requires i < |Apply(net, world, step).peers|
    requires Entry(Apply(net, world, step).peers[i].s.descriptors, e, d.id) == Some(d)
    ensures Entry(world.peers[i].s.descriptors, e, d.id) == Some(d)
            || Posted(net, world.peers[i].site.roster, step, i, e, d)
  {
    hide Apply, Moved, Woken, Inv, OnPostDescriptor, EpochOf, PeerInv, ChainInv, CacheInv, Genuine, Near, Enabled;
    if Wakes(step, i) {
      OwnStep(net, world, step, i);
      InvPeer(net, world, i);
      WakeFrame(net, world.chain, world.peers[i], step.w);
    } else {
      OtherDescriptors(net, world, step, i);
      if step.Post? && step.i == i {
        var p := world.peers[i];
        StoresExactly(net, p.site, p.s, step.up, step.node, EpochOf(net, step.now), e, d.id);
      }
    }
  }

  ghost predicate Lives(steps: seq<Step>, m: nat, i: nat) {
    forall j | m <= j < |steps| :: !Restarts(steps[j], i)
  }

  lemma {:induction false} EntrySource(net: Network, start: World, steps: seq<Step>, m: nat, i: nat, e: nat,
                                       d: MixDescriptor)
    requires net.period > 0 && net.layers > 0 && Initial(net, start) && Runs(net, start, steps) && i < |start.peers|
    requires m <= |steps| && Lives(steps, m, i) && |After(net, start, steps).peers| == |start.peers|
    requires Entry(After(net, start, steps).peers[i].s.descriptors, e, d.id) == Some(d)
    ensures Runs(net, start, steps[..m]) && |After(net, start, steps[..m]).peers| == |start.peers|
    ensures Entry(After(net, start, steps[..m]).peers[i].s.descriptors, e, d.id) == Some(d)
            || PostedIn(net, start.peers[i].site.roster, steps, m, i, e, d)
    decreases |steps|
  {
    hide Apply, Enabled, Initial, Inv, Posted, Entry;
    if m == |steps| {
      assert steps[..m] == steps;
    } else {
      var front, last := steps[..|steps| - 1], steps[|steps| - 1];
      assert front[..m] == steps[..m];
      assert forall j | 0 <= j < |front| :: front[j] == steps[j];
      SamePeers(net, start, front);
      RunKeeps(net, start, front);
      SiteOf(net, start, front, i);
      EntryStep(net, After(net, start, front), last, i, e, d);
      if Posted(net, start.peers[i].site.roster, last, i, e, d) {
        RunsPrefix(net, start, steps, m);
      } else {
        EntrySource(net, start, front, m, i, e, d);
      }
    }
  }

  lemma {:induction false} RunsPrefix(net: Network, start: World, steps: seq<Step>, m: nat)
    requires net.period > 0 && Runs(net, start, steps) && m <= |steps|
    ensures Runs(net, start, steps[..m]) && |After(net, start, steps[..m]).peers| == |start.peers|
    decreases |steps|
  {
    hide Apply, Enabled;
    if m == |steps| {
      assert steps[..m] == steps;
      SamePeers(net, start, steps);
    } else {
      assert steps[..|steps| - 1][..m] == steps[..m];
      RunsPrefix(net, start, steps[..|steps| - 1], m);
    }
  }

  lemma SiteOf(net: Network, start: World, steps: seq<Step>, i: nat)
    requires net.period > 0 && net.layers > 0 && Initial(net, start) && Runs(net, start, steps) && i < |start.peers|
    ensures |After(net, start, steps).peers| == |start.peers|
    ensures After(net, start, steps).peers[i].site == start.peers[i].site
  {
    hide Apply, Enabled, Initial, OfferInv, After, Runs;
    RunOffers(net, start, steps);
    SamePeers(net, start, steps);
    assert Sites(After(net, start, steps))[i] == Sites(start)[i];
  }

  /** In every run, every descriptor that a process holds was uploaded to it by the node itself, signed and in time, or
      was in the database that the process started with. The process starts before the first step or with the restart
      before step `m`. */
  lemma DescriptorsHaveSources(net: Network, start: World, steps: seq<Step>, m: nat, i: nat, e: nat, d: MixDescriptor)
    requires net.period > 0 && net.layers > 0 && Initial(net, start) && Runs(net, start, steps) && i < |start.peers|
    requires m <= |steps| && (m == 0 || Restarts(steps[m - 1], i)) && Lives(steps, m, i)
    requires |After(net, start, steps).peers| == |start.peers|
    requires Entry(After(net, start, steps).peers[i].s.descriptors, e, d.id) == Some(d)
    ensures var (disk, roster) :=
              (if m == 0 then start.peers[i].s.disk else steps[m - 1].disk, start.peers[i].site.roster);
            PostedIn(net, roster, steps, m, i, e, d) || OnDisk(net, roster, disk, e, d)
  {
    hide Apply, Enabled, PostedIn, OnDisk, Entry, Reaches;
    EntrySource(net, start, steps, m, i, e, d);
    if m == 0 {
      var p := start.peers[i];
      StartedExactly(net, p.site, p.s.disk, EpochOf(net, p.clock), e, d);
    } else {
      var front := steps[..m];
      assert front[..|front| - 1] == steps[..m - 1] && front[|front| - 1] == steps[m - 1];
      RunsPrefix(net, start, steps, m - 1);
      SiteOf(net, start, steps[..m - 1], i);
      RestartTurn(net, start, front, i, e, d);
    }
  }

  lemma RestartTurn(net: Network, start: World, steps: seq<Step>, i: nat, e: nat, d: MixDescriptor)
    requires net.period > 0 && Runs(net, start, steps) && steps != [] && Restarts(steps[|steps| - 1], i)
    requires |After(net, start, steps).peers| == |After(net, start, steps[..|steps| - 1]).peers|
    requires i < |After(net, start, steps).peers|
    ensures Entry(After(net, start, steps).peers[i].s.descriptors, e, d.id) == Some(d) ==>
              OnDisk(net, After(net, start, steps[..|steps| - 1]).peers[i].site.roster, steps[|steps| - 1].disk, e, d)
  {
    hide Apply, Started, OnDisk, Entry, Reaches, EpochOf;
    var front, last := steps[..|steps| - 1], steps[|steps| - 1];
    OwnMove(net, After(net, start, front), last, i);
    StartedExactly(net, After(net, start, front).peers[i].site, last.disk, EpochOf(net, last.now), e, d);
  }
}
