/** What the tables of received messages satisfy after any interleaving of uploads, changes of the voting epoch and
    prunings. */
module Interleavings {
  import opened Prelude
  import opened Pki
  import opened Directory
  import opened Uploads

  datatype Kind = VoteKind | CertKind | RevealKind | SigKind

  datatype Event = Arrives(kind: Kind, m: Message) | Advances(epoch: nat) | Prunes(now: nat)

  function Handle(o: Office, s: Received, kind: Kind, m: Message): (Received, Reply) {
    match kind
    case VoteKind => OnVote(o, s, m)
    case CertKind => OnCert(o, s, m)
    case RevealKind => OnReveal(o, s, m)
    case SigKind => OnSig(o, s, m)
  }

  function Next(o: Office, s: Received, ev: Event): Received {
    match ev
    case Arrives(kind, m) => Handle(o, s, kind, m).0
    case Advances(epoch) => s.(votingEpoch := epoch)
    case Prunes(now) => Pruned(s, now)
  }

  function Later(o: Office, s: Received, events: seq<Event>): Received {
    if events == [] then s else Next(o, Later(o, s, events[..|events| - 1]), events[|events| - 1])
  }

  const NOTHING: Received := Received(0, map[], map[], map[], map[], map[])

  // --- the invariant

  ghost predicate AuthoredBy<V>(authors: set<Id>, t: Ledger<V>) {
    forall e, id | id in At(t, e) :: id in authors
  }

  /** Every entry of the one table has its counterpart in the other. */
  ghost predicate Implies<V, W>(t: Ledger<V>, u: Ledger<W>) {
    forall e, id | id in At(t, e) :: id in At(u, e)
  }

  /** Stored votes are for their epoch, and with each its own commit is stored. */
  ghost predicate CommitsMatch(votes: Ledger<Document>, commits: Ledger<Bytes>) {
    forall e, id | id in At(votes, e) :: VoteMatches(At(votes, e)[id], commits, e, id)
  }

  ghost predicate VoteMatches(vote: Document, commits: Ledger<Bytes>, e: nat, id: Id) {
    vote.epoch == e && id in vote.commits && id in At(commits, e) && At(commits, e)[id] == vote.commits[id]
  }

  /** Stored reveals are signed by their authors for their epoch. */
  ghost predicate RevealsSigned(o: Office, openings: Ledger<Bytes>) {
    forall e, id | id in At(openings, e) :: SignedFor(o, At(openings, e)[id], e, id)
  }

  ghost predicate SignedFor(o: Office, blob: Bytes, e: nat, id: Id) {
    o.verify(id, blob).Some? && |Buffer(o, id, blob)| >= 8 && FromBytes(Buffer(o, id, blob)[..8]) == e
  }

  ghost predicate TablesInv(o: Office, s: Received) {
    && AuthoredBy(o.authorized, s.votes) && AuthoredBy(o.authorized, s.commits)
       && AuthoredBy(o.authorized, s.certificates)
    && AuthoredBy(o.authorized, s.openings) && AuthoredBy(o.authorized, s.signatures)
    && Implies(s.certificates, s.votes) && Implies(s.openings, s.commits)
    && CommitsMatch(s.votes, s.commits) && RevealsSigned(o, s.openings)
  }

  // --- tables

  lemma PutAt<V>(t: Ledger<V>, e: nat, id: Id, v: V)
    ensures forall f :: At(Put(t, e, id, v), f) == if f == e then At(t, e)[id := v] else At(t, f)
  {
  }

  lemma OpenedAt<V>(t: Ledger<V>, e: nat)
    ensures forall f :: At(Opened(t, e), f) == At(t, f)
  {
  }

  /** `u` is `t`, with or without an empty map made for `e`, or with one more entry `v` of `id`. */
  ghost predicate Changes<V>(t: Ledger<V>, u: Ledger<V>, e: nat, id: Id, v: Option<V>) {
    if v.Some? then u == Put(t, e, id, v.value) else u == t || u == Opened(t, e)
  }

  lemma ChangesAt<V>(t: Ledger<V>, u: Ledger<V>, e: nat, id: Id, v: Option<V>)
    requires Changes(t, u, e, id, v)
    ensures forall f :: At(u, f) == if f == e && v.Some? then At(t, e)[id := v.value] else At(t, f)
  {
    OpenedAt(t, e);
    if v.Some? {
      PutAt(t, e, id, v.value);
    }
  }

  lemma AuthoredChanges<V>(authors: set<Id>, t: Ledger<V>, u: Ledger<V>, e: nat, id: Id, v: Option<V>)
    requires AuthoredBy(authors, t) && Changes(t, u, e, id, v) && (v.Some? ==> id in authors)
    ensures AuthoredBy(authors, u)
  {
    ChangesAt(t, u, e, id, v);
  }

  /** The source of an implication may gain an entry whose counterpart is there, the target any entry. */
  lemma ImpliesChanges<V, W>(t: Ledger<V>, u: Ledger<V>, w: Ledger<W>, x: Ledger<W>, e: nat, id: Id, v: Option<V>,
                             y: Option<W>)
    requires Implies(t, w) && Changes(t, u, e, id, v) && Changes(w, x, e, id, y)
    requires v.Some? ==> id in At(w, e)
    ensures Implies(u, x)
  {
    ChangesAt(t, u, e, id, v);
    ChangesAt(w, x, e, id, y);
  }

  /** A vote and its commit are stored together. */
  lemma MatchChanges(votes: Ledger<Document>, votes': Ledger<Document>, commits: Ledger<Bytes>, commits': Ledger<Bytes>,
                     e: nat, id: Id, doc: Option<Document>)
    requires CommitsMatch(votes, commits) && Changes(votes, votes', e, id, doc)
             && (doc.Some? ==> doc.value.epoch == e && id in doc.value.commits)
    requires Changes(commits, commits', e, id, if doc.Some? then Some(doc.value.commits[id]) else None)
    ensures CommitsMatch(votes', commits')
  {
    var commit := if doc.Some? then Some(doc.value.commits[id]) else None;
    ChangesAt(votes, votes', e, id, doc);
    ChangesAt(commits, commits', e, id, commit);
    forall f, i | i in At(votes', f) ensures VoteMatches(At(votes', f)[i], commits', f, i) {
      if !(doc.Some? && f == e && i == id) {
        assert VoteMatches(At(votes, f)[i], commits, f, i);
      }
    }
  }

  lemma SignedChanges(o: Office, t: Ledger<Bytes>, u: Ledger<Bytes>, e: nat, id: Id, v: Option<Bytes>)
    requires RevealsSigned(o, t) && Changes(t, u, e, id, v) && (v.Some? ==> SignedFor(o, v.value, e, id))
    ensures RevealsSigned(o, u)
  {
    ChangesAt(t, u, e, id, v);
    forall f, i | i in At(u, f) ensures SignedFor(o, At(u, f)[i], f, i) {
      if !(v.Some? && f == e && i == id) {
        assert SignedFor(o, At(t, f)[i], f, i);
      }
    }
  }

  // --- one message

  lemma VoteChanges(o: Office, s: Received, m: Message) returns (doc: Option<Document>, commit: Option<Bytes>)
    ensures var s' := OnVote(o, s, m).0;
            && s' == s.(votes := s'.votes, commits := s'.commits)
            && Changes(s.votes, s'.votes, s.votingEpoch, m.author, doc)
            && Changes(s.commits, s'.commits, s.votingEpoch, m.author, commit)
    ensures doc.Some? <==> OnVote(o, s, m).1.Ok?
    ensures doc.Some? ==> m.author in o.authorized && m.author !in At(s.votes, s.votingEpoch)
                          && doc.value.epoch == s.votingEpoch && m.author in doc.value.commits
                          && m.epoch == s.votingEpoch && o.verify(m.author, m.payload).Some?
                             && doc == o.parse(m.payload)
    ensures commit == if doc.Some? then Some(doc.value.commits[m.author]) else None
  {
    doc := if OnVote(o, s, m).1.Ok? then o.parse(m.payload) else None;
    commit := if doc.Some? then Some(doc.value.commits[m.author]) else None;
  }

  lemma VoteKeeps(o: Office, s: Received, m: Message)
    requires TablesInv(o, s)
    ensures TablesInv(o, OnVote(o, s, m).0)
  {
    hide AuthoredBy, Implies, CommitsMatch, RevealsSigned, Changes, OnVote;
    var s' := OnVote(o, s, m).0;
    var doc, commit := VoteChanges(o, s, m);
    AuthoredChanges(o.authorized, s.votes, s'.votes, s.votingEpoch, m.author, doc);
    AuthoredChanges(o.authorized, s.commits, s'.commits, s.votingEpoch, m.author, commit);
    NoChange(s.certificates, s.votingEpoch, m.author);
    NoChange(s.openings, s.votingEpoch, m.author);
    ImpliesChanges(s.certificates, s.certificates, s.votes, s'.votes, s.votingEpoch, m.author, None, doc);
    ImpliesChanges(s.openings, s.openings, s.commits, s'.commits, s.votingEpoch, m.author, None, commit);
    MatchChanges(s.votes, s'.votes, s.commits, s'.commits, s.votingEpoch, m.author, doc);
  }

  lemma NoChange<V>(t: Ledger<V>, e: nat, id: Id)
    ensures Changes(t, t, e, id, None)
  {
  }

  lemma CertChanges(o: Office, s: Received, m: Message) returns (doc: Option<Document>)
    ensures var s' := OnCert(o, s, m).0;
            s' == s.(certificates := s'.certificates)
              && Changes(s.certificates, s'.certificates, s.votingEpoch, m.author, doc)
    ensures doc.Some? <==> OnCert(o, s, m).1.Ok?
    ensures doc.Some? ==>
              && m.author in o.authorized && m.author !in At(s.certificates, s.votingEpoch)
              && m.author in At(s.votes, s.votingEpoch)
              && m.epoch == s.votingEpoch && o.verify(m.author, m.payload).Some? && doc == o.parse(m.payload)
  {
    doc := if OnCert(o, s, m).1.Ok? then o.parse(m.payload) else None;
  }

  lemma CertKeeps(o: Office, s: Received, m: Message)
    requires TablesInv(o, s)
    ensures TablesInv(o, OnCert(o, s, m).0)
  {
    hide AuthoredBy, Implies, CommitsMatch, RevealsSigned, Changes, OnCert;
    var s' := OnCert(o, s, m).0;
    var doc := CertChanges(o, s, m);
    AuthoredChanges(o.authorized, s.certificates, s'.certificates, s.votingEpoch, m.author, doc);
    NoChange(s.votes, s.votingEpoch, m.author);
    ImpliesChanges(s.certificates, s'.certificates, s.votes, s.votes, s.votingEpoch, m.author, doc, None);
  }

  lemma RevealChanges(o: Office, s: Received, m: Message) returns (blob: Option<Bytes>)
    ensures var s' := OnReveal(o, s, m).0;
            s' == s.(openings := s'.openings) && Changes(s.openings, s'.openings, s.votingEpoch, m.author, blob)
    ensures blob.Some? <==> OnReveal(o, s, m).1.Ok?
    ensures blob.Some? ==>
              && m.author in o.authorized && m.author !in At(s.openings, s.votingEpoch)
              && m.author in At(s.commits, s.votingEpoch) && SignedFor(o, blob.value, s.votingEpoch, m.author)
              && blob == Some(m.payload)
  {
    blob := if OnReveal(o, s, m).1.Ok? then Some(m.payload) else None;
  }

  lemma RevealKeeps(o: Office, s: Received, m: Message)
    requires TablesInv(o, s)
    ensures TablesInv(o, OnReveal(o, s, m).0)
  {
    hide AuthoredBy, Implies, CommitsMatch, RevealsSigned, Changes, OnReveal, SignedFor;
    var s' := OnReveal(o, s, m).0;
    var blob := RevealChanges(o, s, m);
    AuthoredChanges(o.authorized, s.openings, s'.openings, s.votingEpoch, m.author, blob);
    NoChange(s.commits, s.votingEpoch, m.author);
    ImpliesChanges(s.openings, s'.openings, s.commits, s.commits, s.votingEpoch, m.author, blob, None);
    SignedChanges(o, s.openings, s'.openings, s.votingEpoch, m.author, blob);
  }

  lemma SigChanges(o: Office, s: Received, m: Message) returns (csig: Option<Bytes>)
    ensures var s' := OnSig(o, s, m).0;
            s' == s.(signatures := s'.signatures) && Changes(s.signatures, s'.signatures, s.votingEpoch, m.author, csig)
    ensures csig.Some? <==> OnSig(o, s, m).1.Ok?
    ensures csig.Some? ==> m.author in o.authorized && m.author !in At(s.signatures, s.votingEpoch)
                           && m.epoch == s.votingEpoch && o.verify(m.author, m.payload).Some?
                           && csig == o.signature(o.verify(m.author, m.payload).value)
  {
    csig := if OnSig(o, s, m).1.Ok? then o.signature(o.verify(m.author, m.payload).value) else None;
  }

  lemma SigKeeps(o: Office, s: Received, m: Message)
    requires TablesInv(o, s)
    ensures TablesInv(o, OnSig(o, s, m).0)
  {
    hide AuthoredBy, Implies, CommitsMatch, RevealsSigned, Changes, OnSig;
    var s' := OnSig(o, s, m).0;
    var csig := SigChanges(o, s, m);
    AuthoredChanges(o.authorized, s.signatures, s'.signatures, s.votingEpoch, m.author, csig);
  }

  lemma PruneAt<V>(t: Ledger<V>, cut: nat)
    ensures var u := map e | e in t && e >= cut :: t[e];
            forall e: nat :: At(u, e) == if e >= cut then At(t, e) else map[]
  {
  }

  lemma PruneKeeps(o: Office, s: Received, now: nat)
    requires TablesInv(o, s)
    ensures TablesInv(o, Pruned(s, now))
  {
    var s' := Pruned(s, now);
    PruneAt(s.votes, Sub64(now, 3));
    PruneAt(s.certificates, Sub64(now, 3));
    assert forall e, id | id in At(s'.votes, e) :: VoteMatches(At(s.votes, e)[id], s.commits, e, id);
  }

  lemma EventKeeps(o: Office, s: Received, ev: Event)
    requires TablesInv(o, s)
    ensures TablesInv(o, Next(o, s, ev))
  {
    hide TablesInv, OnVote, OnCert, OnReveal, OnSig, Pruned;
    match ev {
      case Arrives(VoteKind, m) => VoteKeeps(o, s, m);
      case Arrives(CertKind, m) => CertKeeps(o, s, m);
      case Arrives(RevealKind, m) => RevealKeeps(o, s, m);
      case Arrives(SigKind, m) => SigKeeps(o, s, m);
      case Advances(epoch) => AdvanceKeeps(o, s, epoch);
      case Prunes(now) => PruneKeeps(o, s, now);
    }
  }

  lemma AdvanceKeeps(o: Office, s: Received, epoch: nat)
    requires TablesInv(o, s)
    ensures TablesInv(o, s.(votingEpoch := epoch))
  {
  }

  /** After every interleaving: all entries belong to authorized authorities, certificates have their votes and reveals
      their commits, stored commits are those of the stored votes, and stored reveals are signed for their epoch. */
  lemma {:induction false} InterleavingKeeps(o: Office, events: seq<Event>)
    ensures TablesInv(o, Later(o, NOTHING, events))
  {
    if events != [] {
      InterleavingKeeps(o, events[..|events| - 1]);
      EventKeeps(o, Later(o, NOTHING, events[..|events| - 1]), events[|events| - 1]);
    }
  }

  // --- entries stay, and every acceptance is one entry

  predicate Stored(s: Received, kind: Kind, e: nat, id: Id) {
    match kind
    case VoteKind => id in At(s.votes, e)
    case CertKind => id in At(s.certificates, e)
    case RevealKind => id in At(s.openings, e)
    case SigKind => id in At(s.signatures, e)
  }

  ghost predicate Same<V>(t: Ledger<V>, u: Ledger<V>, e: nat, id: Id) {
    id in At(t, e) ==> id in At(u, e) && At(u, e)[id] == At(t, e)[id]
  }

  /** What is stored for an author and an epoch is still there; its commit, as long as there is a vote to which it
      belongs. */
  ghost predicate Unchanged(s: Received, s': Received, e: nat, id: Id) {
    && Same(s.votes, s'.votes, e, id) && Same(s.certificates, s'.certificates, e, id)
    && Same(s.openings, s'.openings, e, id) && Same(s.signatures, s'.signatures, e, id)
    && (id in At(s.votes, e) ==> Same(s.commits, s'.commits, e, id))
  }

  lemma ChangesSame<V>(t: Ledger<V>, u: Ledger<V>, e: nat, id: Id, v: Option<V>, f: nat, i: Id)
    requires Changes(t, u, e, id, v)
    ensures !(v.Some? && f == e && i == id) || i !in At(t, f) ==> Same(t, u, f, i)
    ensures i in At(u, f) <==> i in At(t, f) || (v.Some? && f == e && i == id)
  {
    ChangesAt(t, u, e, id, v);
  }

  /** A message that is accepted was not stored before and is stored then; any other message stores nothing; and none
      touches what is stored. */
  lemma MessageStores(o: Office, s: Received, kind: Kind, m: Message, k: Kind, e: nat, id: Id)
    ensures var (s', reply) := Handle(o, s, kind, m);
            && Unchanged(s, s', e, id)
            && (reply.Ok? ==> !Stored(s, kind, s.votingEpoch, m.author))
            && (Stored(s', k, e, id)
               <==> Stored(s, k, e, id) || (reply.Ok? && k == kind && e == s.votingEpoch && id == m.author))
  {
    hide Changes, OnVote, OnCert, OnReveal, OnSig, Same;
    SameItself(s, e, id);
    match kind {
      case VoteKind =>
        var doc, commit := VoteChanges(o, s, m);
        ChangesSame(s.votes, OnVote(o, s, m).0.votes, s.votingEpoch, m.author, doc, e, id);
        ChangesSame(s.commits, OnVote(o, s, m).0.commits, s.votingEpoch, m.author, commit, e, id);
      case CertKind =>
        var doc := CertChanges(o, s, m);
        ChangesSame(s.certificates, OnCert(o, s, m).0.certificates, s.votingEpoch, m.author, doc, e, id);
      case RevealKind =>
        var blob := RevealChanges(o, s, m);
        ChangesSame(s.openings, OnReveal(o, s, m).0.openings, s.votingEpoch, m.author, blob, e, id);
      case SigKind =>
        var csig := SigChanges(o, s, m);
        ChangesSame(s.signatures, OnSig(o, s, m).0.signatures, s.votingEpoch, m.author, csig, e, id);
    }
  }

  lemma SameItself(s: Received, e: nat, id: Id)
    ensures Same(s.votes, s.votes, e, id) && Same(s.commits, s.commits, e, id)
            && Same(s.certificates, s.certificates, e, id)
    ensures Same(s.openings, s.openings, e, id) && Same(s.signatures, s.signatures, e, id)
  {
  }

  /** Pruning that leaves epoch `e` alone. */
  predicate Spares(ev: Event, e: nat) {
    ev.Prunes? ==> Sub64(ev.now, 3) <= e
  }

  /** The event is a message of this kind from this author in this epoch, and it is accepted. */
  predicate Accepts(o: Office, s: Received, ev: Event, kind: Kind, e: nat, id: Id) {
    ev.Arrives? && ev.kind == kind && ev.m.author == id && s.votingEpoch == e && Handle(o, s, kind, ev.m).1.Ok?
  }

  lemma EventStores(o: Office, s: Received, ev: Event, kind: Kind, e: nat, id: Id)
    requires Spares(ev, e)
    ensures var s' := Next(o, s, ev);
            && Unchanged(s, s', e, id)
            && (Accepts(o, s, ev, kind, e, id) ==> !Stored(s, kind, e, id))
            && (Stored(s', kind, e, id) <==> Stored(s, kind, e, id) || Accepts(o, s, ev, kind, e, id))
  {
    hide Handle;
    match ev {
      case Arrives(k, m) => MessageStores(o, s, k, m, kind, e, id);
      case Advances(epoch) =>
      case Prunes(now) =>
        PruneAt(s.votes, Sub64(now, 3));
        PruneAt(s.certificates, Sub64(now, 3));
    }
  }

  /** How many messages of one kind, author and epoch are accepted. */
  function Acceptances(o: Office, s: Received, events: seq<Event>, kind: Kind, e: nat, id: Id): nat {
    if events == [] then 0
    else
      var front := events[..|events| - 1];
      Acceptances(o, s, front, kind, e, id)
      + if Accepts(o, Later(o, s, front), events[|events| - 1], kind, e, id) then 1 else 0
  }

  /** Between prunings of its epoch, a message of each kind is accepted from an author at most once, and never if one is
      stored already: the acceptances are exactly the new entries. */
  lemma {:induction false} AcceptancesAreEntries(o: Office, s: Received, events: seq<Event>, kind: Kind, e: nat, id: Id)
    requires forall ev | ev in events :: Spares(ev, e)
    ensures (if Stored(s, kind, e, id) then 1 else 0) + Acceptances(o, s, events, kind, e, id)
            == if Stored(Later(o, s, events), kind, e, id) then 1 else 0
  {
    hide Stored, Accepts, Next;
    if events != [] {
      var front := events[..|events| - 1];
      AcceptancesAreEntries(o, s, front, kind, e, id);
      EventStores(o, Later(o, s, front), events[|events| - 1], kind, e, id);
    }
  }

  /** Nothing that is stored is ever overwritten until its epoch is pruned. */
  lemma {:induction false} EntriesAreFinal(o: Office, s: Received, events: seq<Event>, e: nat, id: Id)
    requires forall ev | ev in events :: Spares(ev, e)
    ensures Unchanged(s, Later(o, s, events), e, id)
  {
    hide Next;
    if events != [] {
      EntriesAreFinal(o, s, events[..|events| - 1], e, id);
      EventStores(o, Later(o, s, events[..|events| - 1]), events[|events| - 1], VoteKind, e, id);
    }
  }

  // --- commits

  /** The commit that a message has for its author, if it can be parsed and has one. */
  function OfferedCommit(o: Office, ev: Event, id: Id): Option<Bytes>
    requires ev.Arrives?
  {
    var doc := o.parse(ev.m.payload);
    if doc.Some? && id in doc.value.commits then Some(doc.value.commits[id]) else None
  }

  /** Exactly when an event overwrites a stored commit: it is a vote of the same author for that epoch, accepted because
      no vote of the author is stored, and its commit is another one. */
  lemma CommitChangesExactly(o: Office, s: Received, ev: Event, e: nat, id: Id)
    requires id in At(s.commits, e)
    ensures var (commits, commits') := (At(s.commits, e), At(Next(o, s, ev).commits, e));
            && id in commits'
            && (commits'[id] != commits[id] <==>
                  Accepts(o, s, ev, VoteKind, e, id) && OfferedCommit(o, ev, id) != Some(commits[id]))
            && (commits'[id] != commits[id] ==> id !in At(s.votes, e))
  {
    hide Changes, OnVote, OnCert, OnReveal, OnSig;
    match ev {
      case Arrives(VoteKind, m) =>
        var doc, commit := VoteChanges(o, s, m);
        AcceptedVote(o, s, m);
        ChangesAt(s.commits, OnVote(o, s, m).0.commits, s.votingEpoch, m.author, commit);
      case Arrives(CertKind, m) => var doc := CertChanges(o, s, m);
      case Arrives(RevealKind, m) => var blob := RevealChanges(o, s, m);
      case Arrives(SigKind, m) => var csig := SigChanges(o, s, m);
      case _ =>
    }
  }

  lemma AcceptedVote(o: Office, s: Received, m: Message)
    ensures OnVote(o, s, m).1.Ok? ==>
              var doc := o.parse(m.payload);
              && doc.Some? && m.author in doc.value.commits
              && m.author in At(OnVote(o, s, m).0.commits, s.votingEpoch)
              && At(OnVote(o, s, m).0.commits, s.votingEpoch)[m.author] == doc.value.commits[m.author]
  {
  }

  /** As long as its epoch is spared, a commit is stored for exactly the authors whose votes are. */
  lemma {:induction false} CommitsHaveVotes(o: Office, events: seq<Event>, e: nat)
    requires forall ev | ev in events :: Spares(ev, e)
    ensures At(Later(o, NOTHING, events).commits, e).Keys == At(Later(o, NOTHING, events).votes, e).Keys
  {
    hide Next;
    if events != [] {
      var front := events[..|events| - 1];
      CommitsHaveVotes(o, front, e);
      CommitWithVote(o, Later(o, NOTHING, front), events[|events| - 1], e);
    }
  }

  lemma CommitWithVote(o: Office, s: Received, ev: Event, e: nat)
    requires Spares(ev, e) && At(s.commits, e).Keys == At(s.votes, e).Keys
    ensures At(Next(o, s, ev).commits, e).Keys == At(Next(o, s, ev).votes, e).Keys
  {
    hide Changes, OnVote, OnCert, OnReveal, OnSig;
    match ev {
      case Arrives(VoteKind, m) =>
        var doc, commit := VoteChanges(o, s, m);
        ChangesAt(s.votes, OnVote(o, s, m).0.votes, s.votingEpoch, m.author, doc);
        ChangesAt(s.commits, OnVote(o, s, m).0.commits, s.votingEpoch, m.author, commit);
      case Arrives(CertKind, m) => var doc := CertChanges(o, s, m);
      case Arrives(RevealKind, m) => var blob := RevealChanges(o, s, m);
      case Arrives(SigKind, m) => var csig := SigChanges(o, s, m);
      case Advances(epoch) =>
      case Prunes(now) => PruneAt(s.votes, Sub64(now, 3));
    }
  }

  lemma {:induction false} LaterAppend(o: Office, s: Received, a: seq<Event>, b: seq<Event>)
    ensures Later(o, s, a + b) == Later(o, Later(o, s, a), b)
  {
    if b == [] {
      assert a + b == a;
    } else {
      assert (a + b)[..|a + b| - 1] == a + b[..|b| - 1];
      LaterAppend(o, s, a, b[..|b| - 1]);
    }
  }

  /** In every run that spares an epoch its commits are final: what is stored after `a` is still there after `a + b`. */
  lemma CommitsAreFinal(o: Office, a: seq<Event>, b: seq<Event>, e: nat, id: Id)
    requires forall ev | ev in a + b :: Spares(ev, e)
    requires id in At(Later(o, NOTHING, a).commits, e)
    ensures Same(Later(o, NOTHING, a).commits, Later(o, NOTHING, a + b).commits, e, id)
  {
    CommitsHaveVotes(o, a, e);
    LaterAppend(o, NOTHING, a, b);
    EntriesAreFinal(o, Later(o, NOTHING, a), b, e, id);
  }

  /** Pruning ends the protection of a commit: after the vote is gone, another one is accepted if the voting epoch is
      still the same, and its commit replaces the stored one. */
  lemma PrunedCommitIsReplaced(o: Office, s: Received, m: Message, now: nat)
    requires m.author in At(s.votes, s.votingEpoch) && s.votingEpoch < Sub64(now, 3) && m.epoch == s.votingEpoch
    requires m.author in o.authorized && o.verify(m.author, m.payload).Some? && o.parse(m.payload).Some?
    requires var doc := o.parse(m.payload).value; doc.epoch == m.epoch && m.author in doc.commits
    ensures var s' := Later(o, s, [Prunes(now), Arrives(VoteKind, m)]);
            m.author in At(s'.commits, m.epoch)
              && At(s'.commits, m.epoch)[m.author] == o.parse(m.payload).value.commits[m.author]
  {
    var events := [Prunes(now), Arrives(VoteKind, m)];
    assert events[..1] == [Prunes(now)] && [Prunes(now)][..0] == [];
    assert Later(o, s, [Prunes(now)]) == Pruned(s, now);
  }

  /** A first vote is stored together with its commit. */
  lemma FirstVote(o: Office, e: nat, m: Message)
    requires m.epoch == e && m.author in o.authorized && o.verify(m.author, m.payload).Some? && o.parse(m.payload).Some?
    requires var doc := o.parse(m.payload).value; doc.epoch == e && m.author in doc.commits
    ensures var s := Later(o, NOTHING, [Advances(e), Arrives(VoteKind, m)]);
            && s.votingEpoch == e && m.author in At(s.votes, e) && m.author in At(s.commits, e)
            && At(s.commits, e)[m.author] == o.parse(m.payload).value.commits[m.author]
  {
    var events := [Advances(e), Arrives(VoteKind, m)];
    assert events[..1] == [Advances(e)] && [Advances(e)][..0] == [];
    assert Later(o, NOTHING, [Advances(e)]) == NOTHING.(votingEpoch := e);
  }

  /** A run in which a commit is overwritten: the vote of authority 1 for epoch 5 is pruned while the voting epoch still
      is 5, and then another vote of it arrives. */
  lemma CommitOverwritten() returns (o: Office, a: seq<Event>, b: seq<Event>)
    ensures a == [Advances(5), Arrives(VoteKind, Message(1, 5, [1]))]
    ensures b == [Prunes(10), Arrives(VoteKind, Message(1, 5, [2]))]
    ensures var (before, after) := (Later(o, NOTHING, a).commits, Later(o, NOTHING, a + b).commits);
            1 in At(before, 5) && At(before, 5)[1] == [1] && 1 in At(after, 5) && At(after, 5)[1] == [2]
  {
    var blank := Document(5, 5, [], 0, [], [], [], [], [], [], [], "", "", map[], map[], {});
    o := Office({1}, (id, blob) => Some(blob), (id, blob) => [], blob => Some(blank.(commits := map[1 := blob])),
                blob => Some(blob));
    var first, second := Message(1, 5, [1]), Message(1, 5, [2]);
    a, b := [Advances(5), Arrives(VoteKind, first)], [Prunes(10), Arrives(VoteKind, second)];
    FirstVote(o, 5, first);
    hide Later;
    LaterAppend(o, NOTHING, a, b);
    PrunedCommitIsReplaced(o, Later(o, NOTHING, a), second, 10);
  }
}
