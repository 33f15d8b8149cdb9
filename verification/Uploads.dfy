/** The messages of the voting protocol that one authority receives from the others: votes, certificates, reveals and
    signatures, kept per epoch and author. */
module Uploads {
  import opened Prelude
  import opened Pki
  import opened Directory
  import AuthorityState

  /** What the handlers call: which authorities are known, whether a payload is signed by one of them and what it
      certifies, and two parsers. */
  datatype Office = Office(
    authorized: set<Id>,
    verify: (Id, Bytes) -> Option<Bytes>,
    spare: (Id, Bytes) -> Bytes, // what lies behind the verified bytes in their buffer; a Go slice may reach into it
    parse: Bytes -> Option<Document>,
    signature: Bytes -> Option<Bytes>)

  datatype Message = Message(author: Id, epoch: nat, payload: Bytes)

  /** The error codes, and the run-time panic on a reveal whose buffer is too short for an epoch. */
  datatype Reply = Ok | NotAuthorized | TooEarly | TooLate | NotSigned | Malformed | Invalid | AlreadyReceived | Crash

  type Ledger<V> = map<nat, map<Id, V>>

  datatype Received = Received(
    votingEpoch: nat,
    votes: Ledger<Document>,
    commits: Ledger<Bytes>,
    certificates: Ledger<Document>,
    openings: Ledger<Bytes>,
    signatures: Ledger<Bytes>)

  function At<V>(t: Ledger<V>, e: nat): map<Id, V> {
    if e in t then t[e] else map[]
  }

  /** Makes the epoch's map if it is not there yet. */
  function Opened<V>(t: Ledger<V>, e: nat): Ledger<V> {
    t[e := At(t, e)]
  }

  function Put<V>(t: Ledger<V>, e: nat, id: Id, v: V): Ledger<V> {
    t[e := At(t, e)[id := v]]
  }

  lemma PutOpened<V>(t: Ledger<V>, e: nat, id: Id, v: V)
    ensures Put(Opened(t, e), e, id, v) == Put(t, e, id, v)
  {
  }

  // --- the handlers

  function OnVote(o: Office, s: Received, m: Message): (Received, Reply) {
    var e := s.votingEpoch;
    var open := s.(votes := Opened(s.votes, e), commits := Opened(s.commits, e));
    if m.author !in o.authorized then (s, NotAuthorized)
    else if m.epoch < e then (s, TooEarly)
    else if m.epoch > e then (s, TooLate)
    else if m.author in At(s.votes, e) then (open, AlreadyReceived)
    else if o.verify(m.author, m.payload).None? || o.parse(m.payload).None? then (open, NotSigned)
    else
      var doc := o.parse(m.payload).value;
      if doc.epoch != e || m.author !in doc.commits then (open, Malformed)
      else (s.(votes := Put(s.votes, e, m.author, doc), commits := Put(s.commits, e, m.author, doc.commits[m.author])),
        Ok)
  }

  function OnCert(o: Office, s: Received, m: Message): (Received, Reply) {
    var e := s.votingEpoch;
    if m.author !in o.authorized then (s, NotAuthorized)
    else if m.epoch < e then (s, TooEarly)
    else if m.epoch > e then (s, TooLate)
    else if o.verify(m.author, m.payload).None? || o.parse(m.payload).None? then (s, NotSigned)
    else if m.author !in At(s.votes, e) then (s, TooEarly)
    else if m.author in At(s.certificates, e) then (s.(certificates := Opened(s.certificates, e)), AlreadyReceived)
    else (s.(certificates := Put(s.certificates, e, m.author, o.parse(m.payload).value)), Ok)
  }

  /** The bytes that a slice of the verified ones can reach. */
  function Buffer(o: Office, id: Id, blob: Bytes): Bytes
    requires o.verify(id, blob).Some?
  {
    o.verify(id, blob).value + o.spare(id, blob)
  }

  /** A reveal carries its epoch inside; the epoch of the message is not looked at. */
  function OnReveal(o: Office, s: Received, m: Message): (Received, Reply) {
    var certified := o.verify(m.author, m.payload);
    if m.author !in o.authorized then (s, NotAuthorized)
    else if certified.None? then (s, NotSigned)
    else if |Buffer(o, m.author, m.payload)| < 8 then (s, Crash)
    else
      var e := FromBytes(Buffer(o, m.author, m.payload)[..8]);
      if e < s.votingEpoch then (s, TooLate)
      else if e > s.votingEpoch then (s, TooEarly)
      else if m.author !in At(s.commits, e) then (s, TooEarly)
      else if m.author in At(s.openings, e) then (s.(openings := Opened(s.openings, e)), AlreadyReceived)
      else (s.(openings := Put(s.openings, e, m.author, m.payload)), Ok)
  }

  function OnSig(o: Office, s: Received, m: Message): (Received, Reply) {
    var e := s.votingEpoch;
    var verified := o.verify(m.author, m.payload);
    if m.author !in o.authorized then (s, NotAuthorized)
    else if m.epoch < e then (s, TooEarly)
    else if m.epoch > e then (s, TooLate)
    else if verified.None? then (s, NotSigned)
    else if m.author in At(s.signatures, e) then (s.(signatures := Opened(s.signatures, e)), AlreadyReceived)
    else if o.signature(verified.value).None? then (s.(signatures := Opened(s.signatures, e)), Invalid)
    else (s.(signatures := Put(s.signatures, e, m.author, o.signature(verified.value).value)), Ok)
  }

  /** Pruning reaches votes and certificates only. */
  function Pruned(s: Received, now: nat): Received {
    var cut := Sub64(now, 3);
    s.(votes := map e | e in s.votes && e >= cut :: s.votes[e],
       certificates := map e | e in s.certificates && e >= cut :: s.certificates[e])
  }

  // --- the handlers as they run

  class Exchange {
    const office: Office
    var votingEpoch: nat
    var votes: Ledger<Document>
    var commits: Ledger<Bytes>
    var certificates: Ledger<Document>
    var openings: Ledger<Bytes>
    var signatures: Ledger<Bytes>

    function View(): Received
      reads this
    {
      Received(votingEpoch, votes, commits, certificates, openings, signatures)
    }

    constructor (office: Office)
      ensures this.office == office && View() == Received(0, map[], map[], map[], map[], map[])
    {
      this.office := office;
      votingEpoch, votes, commits, certificates, openings, signatures := 0, map[], map[], map[], map[], map[];
    }

    method OnVoteUpload(vote: Message) returns (reply: Reply)
      modifies this`votes, this`commits
      ensures (View(), reply) == OnVote(office, old(View()), vote)
    {
      if vote.author !in office.authorized { return NotAuthorized; }
      if vote.epoch < votingEpoch { return TooEarly; }
      if vote.epoch > votingEpoch { return TooLate; }
      if votingEpoch !in votes {
        votes := votes[votingEpoch := map[]];
      }
      if votingEpoch !in commits {
        commits := commits[votingEpoch := map[]];
      }
      assert votes == Opened(old(votes), votingEpoch) && commits == Opened(old(commits), votingEpoch);
      if vote.author in votes[votingEpoch] { return AlreadyReceived; }
      if office.verify(vote.author, vote.payload).None? { return NotSigned; }
      var doc := office.parse(vote.payload);
      if doc.None? { return NotSigned; }
      if doc.value.epoch != votingEpoch { return Malformed; }
      if vote.author !in doc.value.commits { return Malformed; }
      var commit := doc.value.commits[vote.author];
      hide Put;
      PutOpened(old(votes), votingEpoch, vote.author, doc.value);
      PutOpened(old(commits), votingEpoch, vote.author, commit);
      votes := Put(votes, votingEpoch, vote.author, doc.value);
      commits := Put(commits, votingEpoch, vote.author, commit);
      return Ok;
    }

    method OnCertUpload(certificate: Message) returns (reply: Reply)
      modifies this`certificates
      ensures (View(), reply) == OnCert(office, old(View()), certificate)
    {
      if certificate.author !in office.authorized { return NotAuthorized; }
      if certificate.epoch < votingEpoch { return TooEarly; }
      if certificate.epoch > votingEpoch { return TooLate; }
      if office.verify(certificate.author, certificate.payload).None? { return NotSigned; }
      var doc := office.parse(certificate.payload);
      if doc.None? { return NotSigned; }
      if votingEpoch !in votes || certificate.author !in votes[votingEpoch] { return TooEarly; }
      if votingEpoch !in certificates {
        certificates := certificates[votingEpoch := map[]];
      }
      assert certificates == Opened(old(certificates), votingEpoch);
      if certificate.author in certificates[votingEpoch] { return AlreadyReceived; }
      certificates := Put(certificates, votingEpoch, certificate.author, doc.value);
      assert certificates == Put(old(certificates), votingEpoch, certificate.author, doc.value);
      return Ok;
    }

    method OnRevealUpload(message: Message) returns (reply: Reply)
      modifies this`openings
      ensures (View(), reply) == OnReveal(office, old(View()), message)
    {
      if message.author !in office.authorized { return NotAuthorized; }
      var certified := office.verify(message.author, message.payload);
      if certified.None? { return NotSigned; }
      var buffer := Buffer(office, message.author, message.payload);
      if |buffer| < 8 { return Crash; }
      var e := FromBytes(buffer[..8]);
      if e < votingEpoch { return TooLate; }
      if e > votingEpoch { return TooEarly; }
      if votingEpoch !in commits { return TooEarly; }
      if message.author !in commits[votingEpoch] { return TooEarly; }
      if votingEpoch !in openings {
        openings := openings[votingEpoch := map[]];
      }
      assert openings == Opened(old(openings), votingEpoch);
      if message.author in openings[votingEpoch] { return AlreadyReceived; }
      openings := Put(openings, votingEpoch, message.author, message.payload);
      assert openings == Put(old(openings), votingEpoch, message.author, message.payload);
      return Ok;
    }

    method OnSigUpload(sig: Message) returns (reply: Reply)
      modifies this`signatures
      ensures (View(), reply) == OnSig(office, old(View()), sig)
    {
      if sig.author !in office.authorized { return NotAuthorized; }
      if sig.epoch < votingEpoch { return TooEarly; }
      if sig.epoch > votingEpoch { return TooLate; }
      var verified := office.verify(sig.author, sig.payload);
      if verified.None? { return NotSigned; }
      if votingEpoch !in signatures {
        signatures := signatures[votingEpoch := map[]];
      }
      assert signatures == Opened(old(signatures), votingEpoch);
      if sig.author in signatures[votingEpoch] { return AlreadyReceived; }
      var csig := office.signature(verified.value);
      if csig.None? { return Invalid; }
      signatures := Put(signatures, votingEpoch, sig.author, csig.value);
      assert signatures == Put(old(signatures), votingEpoch, sig.author, csig.value);
      return Ok;
    }

    method PruneDocuments(now: nat)
      modifies this`votes, this`certificates
      ensures View() == Pruned(old(View()), now)
    {
      var cmpEpoch := Sub64(now, 3);
      votes := AuthorityState.DropBefore(votes, cmpEpoch);
      certificates := AuthorityState.DropBefore(certificates, cmpEpoch);
    }
  }
}
