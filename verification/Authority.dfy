/** The state of one authority as the object it is: fields that the state machine, the background fetches and the
    upload handlers assign under a lock. Every method is verified against its function in Directory.dfy. */
module AuthorityState {
  import opened Prelude
  import opened Pki
  import opened Topology
  import opened Directory

  /** Deletes the entries of a table whose epoch is before `cut`, in whatever order the map is visited. */
  method DropBefore<T>(table: map<nat, T>, cut: nat) returns (kept: map<nat, T>)
    ensures kept == map e | e in table && e >= cut :: table[e]
  {
    kept := table;
    var todo := table.Keys;
    while todo != {}
      invariant todo <= kept.Keys
      invariant kept == map e | e in table && (e >= cut || e in todo) :: table[e]
      decreases todo
    {
      var e :| e in todo;
      if e < cut {
        kept := kept - {e};
      }
      todo := todo - {e};
    }
  }

  /** The entries of one epoch's bucket that can be restored. */
  method ReadBucket(net: Network, roster: Roster, saved: map<Id, Bytes>) returns (entries: map<Id, MixDescriptor>)
    ensures entries == Readable(net, roster, saved)
  {
    entries := map[];
    var todo := saved.Keys;
    while todo != {}
      invariant todo <= saved.Keys
      invariant entries == map id | id in saved.Keys - todo && Restorable(net, roster, id, saved[id])
                               :: net.unmarshal(saved[id]).value
      decreases todo
    {
      var id :| id in todo;
      var desc := net.unmarshal(saved[id]);
      if desc.Some? && desc.value.id == id && Authorized(roster, desc.value) {
        entries := entries[id := desc.value];
      }
      todo := todo - {id};
    }
  }

  /** Carves out the descriptors between gateways, service nodes and mixes. */
  method Carve(ds: seq<MixDescriptor>)
    returns (gateways: seq<MixDescriptor>, services: seq<MixDescriptor>, nodes: seq<MixDescriptor>)
    ensures gateways == Gateways(ds) && services == Services(ds) && nodes == Mixes(ds)
  {
    gateways, services, nodes := [], [], [];
    for i := 0 to |ds|
      invariant gateways == Gateways(ds[..i]) && services == Services(ds[..i]) && nodes == Mixes(ds[..i])
    {
      assert ds[..i + 1][..i] == ds[..i];
      if ds[i].isGateway {
        gateways := gateways + [ds[i]];
      } else if ds[i].isService {
        services := services + [ds[i]];
      } else {
        nodes := nodes + [ds[i]];
      }
    }
    assert ds[..|ds|] == ds;
  }

  class Authority {
    const net: Network
    const site: Site
    var phase: Phase
    var votingEpoch: nat
    var genesisEpoch: nat
    var priorSrv: seq<Bytes>
    var documents: map<nat, Document>
    var descriptors: Descriptors
    var disk: Disk
    var fetches: multiset<Fetch>

    function View(): State
      reads this
    {
      State(phase, votingEpoch, genesisEpoch, priorSrv, documents, descriptors, disk, fetches)
    }

    /** A new process: restores what is saved for the epochs around `now` and starts in the bootstrap phase. */
    constructor (net: Network, site: Site, disk: Disk, now: nat)
      ensures this.net == net && this.site == site
      ensures View() == Started(net, site, disk, now)
    {
      this.net, this.site := net, site;
      phase, votingEpoch, genesisEpoch, priorSrv := Bootstrap, 0, 0, [];
      documents, descriptors, fetches := map[], map[], multiset{};
      this.disk := disk;
      new;
      var ok := RestorePersistence(now);
      if !ok {
        phase := Crashed;
      }
    }

    /** Documents and descriptors from the database; a new database is given its version. */
    method RestorePersistence(now: nat) returns (ok: bool)
      requires documents == map[] && descriptors == map[]
      modifies this`documents, this`descriptors, this`disk
      ensures ok <==> old(disk).version == None || old(disk).version == Some(VERSION)
      ensures Restoration(documents, descriptors) == Restore(net, site.roster, old(disk), now)
      ensures disk == if old(disk).version.None? then old(disk).(version := Some(VERSION)) else old(disk)
    {
      if disk.version.None? {
        disk := disk.(version := Some(VERSION));
        return true;
      }
      if disk.version.value != VERSION { return false; }
      var epochs := Around(now);
      for i := 0 to 3
        invariant RestoreFrom(net, site.roster, disk, epochs[i..], Restoration(documents, descriptors))
                  == Restore(net, site.roster, disk, now)
        invariant disk == old(disk)
      {
        var epoch := epochs[i];
        assert epochs[i..][0] == epoch && epochs[i..][1..] == epochs[i + 1..];
        ghost var before := Restoration(documents, descriptors);
        if epoch in disk.documents {
          if !net.thresholdSigned(disk.documents[epoch]) { break; }
          var doc := net.parse(disk.documents[epoch]);
          if doc.Some? && doc.value.epoch == epoch {
            documents := documents[epoch := doc.value];
          }
        }
        if epoch in disk.descriptors {
          var entries := ReadBucket(net, site.roster, disk.descriptors[epoch]);
          if entries != map[] {
            descriptors := descriptors[epoch := entries];
          }
        }
        assert Restoration(documents, descriptors) == RestoreEpoch(net, site.roster, disk, epoch, before);
      }
      return true;
    }

    // --- fetching from the chain

    method BackgroundFetch(epoch: nat)
      modifies this`fetches
      ensures View() == StartFetch(old(View()), epoch)
    {
      if epoch !in documents {
        fetches := fetches + multiset{Asked(epoch)};
      }
    }

    /** The end of a background fetch, under the lock. `signs` says whether signing the document succeeds. */
    method Receive(f: Fetch, signs: bool)
      requires f.Answered?
      modifies this`fetches, this`documents
      ensures View() == FinishFetch(site, old(View()), f, signs)
    {
      fetches := fetches - multiset{f};
      // The epoch may have been filled while the chain was asked.
      if f.epoch !in documents {
        if signs {
          documents := documents[f.epoch := Signed(site, f.doc)];
        }
      }
    }

    // --- documents

    method GetDocument(ds: seq<MixDescriptor>, replicas: seq<ReplicaDescriptor>, parameters: Parameters, srv: Bytes)
      returns (doc: Option<Document>)
      ensures doc == MakeDocument(net, votingEpoch, genesisEpoch, Cached(View()), ds, replicas, parameters, srv)
    {
      var gateways, services, nodes := Carve(ds);
      var topology;
      if Sub64(votingEpoch, 1) in documents {
        topology := GenerateTopology(nodes, documents[Sub64(votingEpoch, 1)].topology, net.layers, net.reader(srv));
      } else {
        topology := GenerateRandomTopology(nodes, net.layers, net.reader(srv));
      }
      if topology.None? || net.layers == 0 { return None; }
      var made := Document(votingEpoch, genesisEpoch, parameters, NodesPerLayer(net, ds), topology.value, gateways,
                           services, replicas, srv, priorSrv, net.geometry, net.scheme, "", map[], map[], {});
      made := made.(priorSrv := [srv]);
      return Some(made);
    }

    method ComputeVote(list: Option<seq<MixDescriptor>>) returns (outcome: VoteOutcome)
      modifies this`genesisEpoch, this`priorSrv, this`documents
      ensures (View(), outcome) == GetVote(net, old(View()), list)
    {
      var e := Sub64(votingEpoch, 1);
      if e in documents {
        genesisEpoch := documents[e].genesisEpoch;
        priorSrv := documents[e].priorSrv;
        documents := documents[e := documents[e].(scheme := net.scheme)];
      } else {
        genesisEpoch := votingEpoch;
      }
      if list.None? { return Failed; }
      var doc := GetDocument(list.value, [], net.parameters, Zeros());
      if doc.None? { return Panicked; }
      var vote := doc.value.(version := DOCUMENT_VERSION);
      if !net.wellFormed(vote) { return Failed; }
      return Voted(vote);
    }

    // --- the state machine

    method Fsm(w: Wakeup) returns (effect: Effect, sleep: int)
      requires net.period > 0
      modifies this
      ensures Turn(View(), effect, sleep) == FsmStep(net, site, old(View()), w)
    {
      effect, sleep := Advance(w, EpochOf(net, w.start), Elapsed(net, w.start), Elapsed(net, w.later));
      if phase.Crashed? { return; }
      PruneDocuments(EpochOf(net, w.pruning));
    }

    /** The switch over the phases. */
    method Advance(w: Wakeup, epoch: nat, elapsed: nat, later: nat) returns (effect: Effect, sleep: int)
      modifies this
      ensures Turn(View(), effect, sleep) == Phased(net, site, old(View()), w, epoch, elapsed, later)
    {
      hide AtBootstrap, AtAcceptDescriptor, StartFetch;
      var nextEpoch := net.period - elapsed;
      effect, sleep := Quiet, 0;
      match phase {
        case Bootstrap =>
          sleep := Join(epoch, elapsed, w.jitter);
        case DescriptorSend =>
          if votingEpoch in descriptors && site.node in descriptors[votingEpoch] {
            effect := SubmitDescriptor(descriptors[votingEpoch][site.node], votingEpoch);
          }
          phase := AcceptDescriptor;
          sleep := DescriptorBlockDeadline(net) - elapsed + w.jitter;
        case AcceptDescriptor =>
          effect, sleep := Vote(w.list, later);
        case AcceptVote =>
          BackgroundFetch(votingEpoch);
          phase := ConfirmConsensus;
          sleep := PublishConsensusDeadline(net) - later;
        case ConfirmConsensus =>
          if Add64(epoch, 1) in documents {
            phase := DescriptorSend;
            sleep := MixPublishDeadline(net) + nextEpoch + w.jitter;
            votingEpoch := Add64(votingEpoch, 1);
          } else {
            phase := Bootstrap;
            votingEpoch := Add64(epoch, 2);
            sleep := nextEpoch;
          }
        case Crashed =>
          return;
      }
    }

    /** The bootstrap phase. */
    method Join(epoch: nat, elapsed: nat, jitter: nat) returns (sleep: int)
      requires phase.Bootstrap?
      modifies this
      ensures Turn(View(), Quiet, sleep) == AtBootstrap(net, old(View()), epoch, elapsed, jitter)
    {
      genesisEpoch := 0;
      BackgroundFetch(Sub64(epoch, 1));
      BackgroundFetch(epoch);
      if elapsed > MixPublishDeadline(net) {
        sleep := net.period - elapsed;
        votingEpoch := Add64(epoch, 2);
        phase := Bootstrap;
      } else {
        votingEpoch := Add64(epoch, 1);
        phase := DescriptorSend;
        sleep := MixPublishDeadline(net) - elapsed + jitter;
        if sleep < 0 {
          sleep := 0;
        }
      }
    }

    /** The phase in which the vote is made. */
    method Vote(list: Option<seq<MixDescriptor>>, later: nat) returns (effect: Effect, sleep: int)
      modifies this
      ensures Turn(View(), effect, sleep) == AtAcceptDescriptor(net, old(View()), later, list)
    {
      hide Recall, Outcome;
      effect, sleep := Quiet, 0;
      var outcome := ComputeVote(list);
      if outcome.Panicked? {
        phase := Crashed;
        return;
      }
      if outcome.Voted? {
        effect := SubmitVote(outcome.doc);
      }
      phase := AcceptVote;
      sleep := AuthorityVoteDeadline(net) - later;
    }

    method PruneDocuments(now: nat)
      modifies this`documents, this`descriptors
      ensures View() == Directory.Prune(old(View()), now)
    {
      var cmpEpoch := Sub64(now, 3);
      documents := DropBefore(documents, cmpEpoch);
      descriptors := DropBefore(descriptors, cmpEpoch);
    }

    // --- uploads of descriptors

    method OnDescriptorUpload(raw: Bytes, desc: MixDescriptor, epoch: nat) returns (ok: bool)
      modifies this`descriptors, this`disk
      ensures (View(), ok) == Directory.OnDescriptorUpload(net, old(View()), raw, desc, epoch)
    {
      if epoch !in descriptors {
        descriptors := descriptors[epoch := map[]];
      }
      assert descriptors == old(descriptors)[epoch := Table(old(View()), epoch)];
      if desc.id in descriptors[epoch] {
        // Redundant uploads that change nothing are harmless.
        var serialized := net.marshal(descriptors[epoch][desc.id]);
        return serialized.Some? && serialized.value == raw;
      }
      if epoch in documents {
        return false; // late
      }
      disk := disk.(descriptors := Saved(disk.descriptors, epoch, desc.id, raw));
      var table: map<Id, MixDescriptor> := descriptors[epoch];
      descriptors := descriptors[epoch := table[desc.id := desc]];
      assert descriptors == old(descriptors)[epoch := Table(old(View()), epoch)[desc.id := desc]];
      return true;
    }

    method OnPostDescriptor(cmd: Upload, peer: Id, now: nat) returns (status: PostStatus)
      modifies this`descriptors, this`disk
      ensures (View(), status) == Directory.OnPostDescriptor(net, site, old(View()), cmd, peer, now)
    {
      status := DescriptorInvalid;
      if cmd.epoch != Sub64(now, 1) && cmd.epoch != now && cmd.epoch != Add64(now, 1) { return; }
      var upload := net.openUpload(cmd.payload);
      if upload.None? { return; }
      var desc := upload.value;
      status := DescriptorForbidden;
      if desc.id != peer { return; }
      if !net.keyParses(desc) { return; }
      if !net.uploadSigned(cmd.payload) { return; }
      if !Authorized(site.roster, desc) { return; }
      var ok := OnDescriptorUpload(cmd.payload, desc, cmd.epoch);
      status := if ok then DescriptorOk else DescriptorConflict;
    }
  }
}
