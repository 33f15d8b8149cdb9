/** What a process finds in its database when it starts. */
module Restoring {
  import opened Prelude
  import opened Pki
  import opened Directory

  /** The entry that the database holds for a node in an epoch. */
  function Kept(disk: Disk, e: nat, id: Id): Option<Bytes> {
    if e in disk.descriptors && id in disk.descriptors[e] then Some(disk.descriptors[e][id]) else None
  }

  /** The database holds an entry of `d` for epoch `e` under its own identity, and the roster admits it. */
  ghost predicate OnDisk(net: Network, roster: Roster, disk: Disk, e: nat, d: MixDescriptor) {
    var raw := Kept(disk, e, d.id);
    raw.Some? && net.unmarshal(raw.value) == Some(d) && Authorized(roster, d)
  }

  /** Restoring reaches epoch `e`: it is one of `epochs`, and neither its document nor one before lacks signatures. */
  ghost predicate Reaches(net: Network, disk: Disk, epochs: seq<nat>, e: nat) {
    exists k :: 0 <= k < |epochs| && epochs[k] == e && Reached(net, disk, epochs, k)
  }

  function Entry(t: Descriptors, e: nat, id: Id): Option<MixDescriptor> {
    if e in t && id in t[e] then Some(t[e][id]) else None
  }

  lemma ReachesNext(net: Network, disk: Disk, epochs: seq<nat>, e: nat)
    requires epochs != []
    ensures Reaches(net, disk, epochs, e)
            <==> !BadlySigned(net, disk, epochs[0]) && (epochs[0] == e || Reaches(net, disk, epochs[1..], e))
  {
    hide BadlySigned;
    var others := epochs[1..];
    if !BadlySigned(net, disk, epochs[0]) {
      if epochs[0] == e {
        assert Reached(net, disk, epochs, 0);
      }
      forall k | 0 <= k < |epochs|
        ensures Reached(net, disk, epochs, k) <==> k == 0 || Reached(net, disk, others, k - 1)
      {
        ReachedNext(net, disk, epochs, k);
      }
      if k :| 0 <= k < |others| && others[k] == e && Reached(net, disk, others, k) {
        assert epochs[k + 1] == e && Reached(net, disk, epochs, k + 1);
      }
      if k :| 0 < k < |epochs| && epochs[k] == e && Reached(net, disk, epochs, k) {
        assert others[k - 1] == e && Reached(net, disk, others, k - 1);
      }
    }
  }

  lemma EntriesOf(net: Network, roster: Roster, disk: Disk, epoch: nat, r: Restoration, e: nat, d: MixDescriptor)
    ensures Entry(RestoreEpoch(net, roster, disk, epoch, r).descriptors, e, d.id) == Some(d) <==>
            if e == epoch && exists id :: OnDiskAt(net, roster, disk, e, id)
            then OnDisk(net, roster, disk, e, d) else Entry(r.descriptors, e, d.id) == Some(d)
  {
    var entries := RestoredEpoch(net, roster, disk, epoch);
    assert entries == map[] <==> forall id :: id !in entries;
    forall id ensures id in entries <==> OnDiskAt(net, roster, disk, epoch, id) {
    }
  }

  /** Some readable entry is held for this node. */
  ghost predicate OnDiskAt(net: Network, roster: Roster, disk: Disk, e: nat, id: Id) {
    var raw := Kept(disk, e, id);
    raw.Some? && net.unmarshal(raw.value).Some? && net.unmarshal(raw.value).value.id == id
      && Authorized(roster, net.unmarshal(raw.value).value)
  }

  /** Exactly which descriptors come back: those of the epochs that are reached. */
  lemma {:induction false} DescriptorsExactly(net: Network, roster: Roster, disk: Disk, epochs: seq<nat>,
                                              r: Restoration, e: nat, d: MixDescriptor)
    ensures Entry(RestoreFrom(net, roster, disk, epochs, r).descriptors, e, d.id) == Some(d) <==>
            if Reaches(net, disk, epochs, e) && exists id :: OnDiskAt(net, roster, disk, e, id)
            then OnDisk(net, roster, disk, e, d) else Entry(r.descriptors, e, d.id) == Some(d)
  {
    hide RestoreEpoch, Reaches, BadlySigned, OnDisk, OnDiskAt, Entry;
    if epochs != [] {
      ReachesNext(net, disk, epochs, e);
      if !BadlySigned(net, disk, epochs[0]) {
        EntriesOf(net, roster, disk, epochs[0], r, e, d);
        DescriptorsExactly(net, roster, disk, epochs[1..], RestoreEpoch(net, roster, disk, epochs[0], r), e, d);
      }
    } else {
      assert !Reaches(net, disk, epochs, e) by { NothingReached(net, disk, epochs, e); }
    }
  }

  lemma NothingReached(net: Network, disk: Disk, epochs: seq<nat>, e: nat)
    requires epochs == []
    ensures !Reaches(net, disk, epochs, e)
  {
  }

  /** The state of a new process: nothing but what its database holds for the three epochs around `now`, which is
      nothing if the database is new and unusable if it has another version. */
  lemma StartedExactly(net: Network, site: Site, disk: Disk, now: nat, e: nat, d: MixDescriptor)
    ensures var s := Started(net, site, disk, now);
            var reached := disk.version == Some([0]) && Reaches(net, disk, [Sub64(now, 1), now, Add64(now, 1)], e);
            && (s.phase.Bootstrap? <==> disk.version.None? || disk.version == Some([0]))
            && (!s.phase.Bootstrap? ==> s.phase.Crashed?)
            && s.votingEpoch == 0 && s.genesisEpoch == 0 && s.priorSrv == [] && s.fetches == multiset{}
            && s.disk == (if disk.version.None? then disk.(version := Some([0])) else disk)
            && (Entry(s.descriptors, e, d.id) == Some(d) <==> reached && OnDisk(net, site.roster, disk, e, d))
            && (e in s.documents <==>
                  reached && e in disk.documents && DocumentFor(net, disk.documents[e], e))
            && (e in s.documents ==> Some(s.documents[e]) == net.parse(disk.documents[e]))
  {
    hide RestoreFrom, Reached;
    var none := Restoration(map[], map[]);
    DescriptorsExactly(net, site.roster, disk, Around(now), none, e, d);
    RestoresExactly(net, site.roster, disk, Around(now), none, e);
    if OnDisk(net, site.roster, disk, e, d) {
      assert OnDiskAt(net, site.roster, disk, e, d.id);
    }
  }

  predicate DocumentFor(net: Network, raw: Bytes, e: nat) {
    var doc := net.parse(raw);
    doc.Some? && doc.value.epoch == e
  }
}
