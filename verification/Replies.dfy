/** Which reply every upload of the voting protocol gets, and that whatever is stored was signed by its author. */
module Replies {
  import opened Prelude
  import opened Pki
  import opened Directory
  import opened Uploads
  import opened Interleavings

  // --- the replies

  /** A vote is accepted exactly if its author is known, it is for the voting epoch, signed and parsed, for that epoch
      inside too, with a commit of its author, and the first one. */
  lemma VoteReply(o: Office, s: Received, m: Message)
    ensures var (reply, doc, e) := (OnVote(o, s, m).1, o.parse(m.payload), s.votingEpoch);
            var current := m.author in o.authorized && m.epoch == e;
            var first := current && m.author !in At(s.votes, e);
            var signed := first && o.verify(m.author, m.payload).Some? && doc.Some?;
            && (reply == Ok <==> signed && doc.value.epoch == e && m.author in doc.value.commits)
            && (reply == NotAuthorized <==> m.author !in o.authorized)
            && (reply == TooEarly <==> m.author in o.authorized && m.epoch < e)
            && (reply == TooLate <==> m.author in o.authorized && m.epoch > e)
            && (reply == AlreadyReceived <==> current && !first)
            && (reply == NotSigned <==> first && !signed)
            && (reply == Malformed <==> signed && !(doc.value.epoch == e && m.author in doc.value.commits))
  {
  }

  /** A certificate is accepted exactly if its author is known, it is for the voting epoch, signed and parsed, the vote
      of its author is stored, and it is the first one. */
  lemma CertReply(o: Office, s: Received, m: Message)
    ensures var (reply, e) := (OnCert(o, s, m).1, s.votingEpoch);
            var current := m.author in o.authorized && m.epoch == e;
            var signed := current && o.verify(m.author, m.payload).Some? && o.parse(m.payload).Some?;
            var voted := m.author in At(s.votes, e);
            && (reply == Ok <==> signed && voted && m.author !in At(s.certificates, e))
            && (reply == NotAuthorized <==> m.author !in o.authorized)
            && (reply == TooEarly <==> (m.author in o.authorized && m.epoch < e) || (signed && !voted))
            && (reply == TooLate <==> m.author in o.authorized && m.epoch > e)
            && (reply == NotSigned <==> current && !signed)
            && (reply == AlreadyReceived <==> signed && voted && m.author in At(s.certificates, e))
  {
  }

  /** A reveal is accepted exactly if its author is known and has signed it, the epoch inside is the voting epoch, the
      commit of its author is stored, and it is the first one; the handler panics on a signed one that is too short for
      an epoch. */
  lemma RevealReply(o: Office, s: Received, m: Message)
    ensures var (reply, v) := (OnReveal(o, s, m).1, s.votingEpoch);
            var known := m.author in o.authorized;
            var signed := known && o.verify(m.author, m.payload).Some?;
            var long := signed && |o.verify(m.author, m.payload).value| + |o.spare(m.author, m.payload)| >= 8;
            var e := if long then FromBytes(Buffer(o, m.author, m.payload)[..8]) else 0;
            var (committed, first) := (m.author in At(s.commits, v), m.author !in At(s.openings, v));
            && (reply == Ok <==> long && e == v && committed && first)
            && (reply == NotAuthorized <==> !known)
            && (reply == NotSigned <==> known && !signed)
            && (reply == Crash <==> signed && !long)
            && (reply == TooLate <==> long && e < v)
            && (reply == TooEarly <==> long && (e > v || (e == v && !committed)))
            && (reply == AlreadyReceived <==> long && e == v && committed && !first)
  {
  }

  /** A signature is accepted exactly if its author is known, it is for the voting epoch, signed, the first one, and the
      signed bytes are one. */
  lemma SigReply(o: Office, s: Received, m: Message)
    ensures var (reply, e, verified) := (OnSig(o, s, m).1, s.votingEpoch, o.verify(m.author, m.payload));
            var current := m.author in o.authorized && m.epoch == e;
            var first := current && verified.Some? && m.author !in At(s.signatures, e);
            && (reply == Ok <==> first && o.signature(verified.value).Some?)
            && (reply == NotAuthorized <==> m.author !in o.authorized)
            && (reply == TooEarly <==> m.author in o.authorized && m.epoch < e)
            && (reply == TooLate <==> m.author in o.authorized && m.epoch > e)
            && (reply == NotSigned <==> current && verified.None?)
            && (reply == AlreadyReceived <==> current && verified.Some? && !first)
            && (reply == Invalid <==> first && o.signature(verified.value).None?)
  {
  }

  // --- what is stored

  /** The stored entry is the content of this payload. */
  ghost predicate IsContent(o: Office, s: Received, kind: Kind, e: nat, id: Id, payload: Bytes)
    requires Stored(s, kind, e, id) && o.verify(id, payload).Some?
  {
    match kind
    case VoteKind => o.parse(payload) == Some(At(s.votes, e)[id])
    case CertKind => o.parse(payload) == Some(At(s.certificates, e)[id])
    case RevealKind => payload == At(s.openings, e)[id]
    case SigKind => o.signature(o.verify(id, payload).value) == Some(At(s.signatures, e)[id])
  }

  /** The event is a message from `id`, signed by it, whose content is what is stored of it. */
  ghost predicate Brings(o: Office, s: Received, ev: Event, kind: Kind, e: nat, id: Id)
    requires Stored(s, kind, e, id)
  {
    && ev.Arrives? && ev.kind == kind && ev.m.author == id && (kind.RevealKind? || ev.m.epoch == e)
    && o.verify(id, ev.m.payload).Some? && IsContent(o, s, kind, e, id, ev.m.payload)
  }

  /** Both states have the same entry of this kind. */
  ghost predicate SameEntry(s: Received, s': Received, kind: Kind, e: nat, id: Id) {
    && Stored(s, kind, e, id) && Stored(s', kind, e, id)
    && match kind
       case VoteKind => At(s'.votes, e)[id] == At(s.votes, e)[id]
       case CertKind => At(s'.certificates, e)[id] == At(s.certificates, e)[id]
       case RevealKind => At(s'.openings, e)[id] == At(s.openings, e)[id]
       case SigKind => At(s'.signatures, e)[id] == At(s.signatures, e)[id]
  }

  lemma MessageBrings(o: Office, s: Received, kind: Kind, m: Message, k: Kind, e: nat, id: Id)
    requires Stored(Handle(o, s, kind, m).0, k, e, id)
    ensures var s' := Handle(o, s, kind, m).0;
            SameEntry(s, s', k, e, id) || Brings(o, s', Event.Arrives(kind, m), k, e, id)
  {
    hide Changes, OnVote, OnCert, OnReveal, OnSig;
    match kind {
      case VoteKind =>
        var doc, commit := VoteChanges(o, s, m);
        ChangesAt(s.votes, OnVote(o, s, m).0.votes, s.votingEpoch, m.author, doc);
      case CertKind =>
        var doc := CertChanges(o, s, m);
        ChangesAt(s.certificates, OnCert(o, s, m).0.certificates, s.votingEpoch, m.author, doc);
      case RevealKind =>
        var blob := RevealChanges(o, s, m);
        ChangesAt(s.openings, OnReveal(o, s, m).0.openings, s.votingEpoch, m.author, blob);
      case SigKind =>
        var csig := SigChanges(o, s, m);
        ChangesAt(s.signatures, OnSig(o, s, m).0.signatures, s.votingEpoch, m.author, csig);
    }
  }

  lemma EventBrings(o: Office, s: Received, ev: Event, kind: Kind, e: nat, id: Id)
    requires Stored(Next(o, s, ev), kind, e, id)
    ensures SameEntry(s, Next(o, s, ev), kind, e, id) || Brings(o, Next(o, s, ev), ev, kind, e, id)
  {
    hide Handle, Brings;
    match ev {
      case Arrives(k, m) => MessageBrings(o, s, k, m, kind, e, id);
      case Advances(epoch) =>
      case Prunes(now) =>
        PruneAt(s.votes, Sub64(now, 3));
        PruneAt(s.certificates, Sub64(now, 3));
    }
  }

  /** After every interleaving each stored vote, certificate, reveal and signature is the content of a message that its
      author signed and that has arrived. */
  lemma {:induction false} EntriesAreSigned(o: Office, events: seq<Event>, kind: Kind, e: nat, id: Id)
    requires Stored(Later(o, NOTHING, events), kind, e, id)
    ensures exists k :: 0 <= k < |events| && Brings(o, Later(o, NOTHING, events), events[k], kind, e, id)
  {
    hide Next;
    if events == [] {
      assert false;
    } else {
      var front, last := events[..|events| - 1], events[|events| - 1];
      var s, s' := Later(o, NOTHING, front), Later(o, NOTHING, events);
      EventBrings(o, s, last, kind, e, id);
      if SameEntry(s, s', kind, e, id) {
        EntriesAreSigned(o, front, kind, e, id);
        var k :| 0 <= k < |front| && Brings(o, s, front[k], kind, e, id);
        assert Brings(o, s', events[k], kind, e, id);
      }
    }
  }

  /** The event is a signed vote of `id` for epoch `e` with this commit. */
  ghost predicate Commits(o: Office, ev: Event, e: nat, id: Id, commit: Bytes) {
    && ev.Arrives? && ev.kind.VoteKind? && ev.m.author == id && ev.m.epoch == e && o.verify(id, ev.m.payload).Some?
    && var doc := o.parse(ev.m.payload);
    doc.Some? && id in doc.value.commits && doc.value.commits[id] == commit
  }

  lemma EventCommits(o: Office, s: Received, ev: Event, e: nat, id: Id)
    requires id in At(Next(o, s, ev).commits, e)
    ensures var commit := At(Next(o, s, ev).commits, e)[id];
            (id in At(s.commits, e) && At(s.commits, e)[id] == commit) || Commits(o, ev, e, id, commit)
  {
    hide Changes, OnVote, OnCert, OnReveal, OnSig;
    match ev {
      case Arrives(VoteKind, m) =>
        var doc, commit := VoteChanges(o, s, m);
        ChangesAt(s.commits, OnVote(o, s, m).0.commits, s.votingEpoch, m.author, commit);
      case Arrives(CertKind, m) => var doc := CertChanges(o, s, m);
      case Arrives(RevealKind, m) => var blob := RevealChanges(o, s, m);
      case Arrives(SigKind, m) => var csig := SigChanges(o, s, m);
      case _ =>
    }
  }

  /** Also each stored commit, even if the vote it came with has been pruned, is that of a vote that its author
      signed. */
  lemma {:induction false} CommitsAreSigned(o: Office, events: seq<Event>, e: nat, id: Id)
    requires id in At(Later(o, NOTHING, events).commits, e)
    ensures var commit := At(Later(o, NOTHING, events).commits, e)[id];
            exists k :: 0 <= k < |events| && Commits(o, events[k], e, id, commit)
  {
    hide Next, Commits;
    if events == [] {
      assert false;
    } else {
      var front, last := events[..|events| - 1], events[|events| - 1];
      var s, commit := Later(o, NOTHING, front), At(Later(o, NOTHING, events).commits, e)[id];
      EventCommits(o, s, last, e, id);
      if !Commits(o, last, e, id, commit) {
        CommitsAreSigned(o, front, e, id);
        var k :| 0 <= k < |front| && Commits(o, front[k], e, id, commit);
        assert Commits(o, events[k], e, id, commit);
      }
    }
  }

  /** Pruning removes exactly the votes and certificates of epochs more than three before. */
  lemma PrunesExactly(s: Received, now: nat, e: nat)
    ensures var (s', recent) := (Pruned(s, now), e >= Sub64(now, 3));
            && s' == s.(votes := s'.votes, certificates := s'.certificates)
            && (e in s'.votes <==> e in s.votes && recent) && (e in s'.votes ==> s'.votes[e] == s.votes[e])
            && (e in s'.certificates <==> e in s.certificates && recent)
            && (e in s'.certificates ==> s'.certificates[e] == s.certificates[e])
  {
  }
}
