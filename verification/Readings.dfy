/** The commit-and-reveal check as a list of readings: which entries it looks at, and exactly whom these discredit and
    what they record. */
module Readings {
  import opened Prelude
  import opened Pki
  import opened SharedRandom

  /** A certificate is opened, or one of its entries is come to. */
  datatype Reading = Opens(x: Id) | Entry(x: Id, id: Id)

  /** How far the check is; `stopped` if the rest of the present certificate is not looked at. */
  datatype Check = Check(m: Marks, stopped: bool)

  const START: Check := Check(FRESH, false)

  predicate Fits(certs: Certificates, t: seq<Reading>) {
    forall r | r in t :: r.x in certs && (r.Entry? ==> r.id in certs[r.x].commits)
  }

  /** A certificate is looked at unless its author is discredited when it is opened, up to the first flaw; and in it the
      entries whose authors are not discredited when they are come to. */
  function Next(lib: Library, epoch: nat, certs: Certificates, c: Check, r: Reading): Check
    requires Fits(certs, [r])
  {
    assert r in [r];
    match r
    case Opens(x) => c.(stopped := x in c.m.bad)
    case Entry(x, id) =>
      if c.stopped || id in c.m.bad then c
      else
        match Judge(lib, epoch, certs[x], id)
        case Careless => Check(c.m.(bad := c.m.bad + {x}), true)
        case Shared => Check(c.m.(bad := c.m.bad + {x, id}), true)
        case Sound => c.(m := Record(c.m, id, certs[x].commits[id], certs[x].openings[id]))
  }

  function Replay(lib: Library, epoch: nat, certs: Certificates, c: Check, t: seq<Reading>): Check
    requires Fits(certs, t)
  {
    if t == [] then c
    else Next(lib, epoch, certs, Replay(lib, epoch, certs, c, t[..|t| - 1]), t[|t| - 1])
  }

  function EntriesOf(x: Id, order: seq<Id>): seq<Reading> {
    if order == [] then [] else [Entry(x, order[0])] + EntriesOf(x, order[1..])
  }

  /** What the check comes to when the maps are visited in these orders. */
  function Transcript(outer: seq<Id>, inner: map<Id, seq<Id>>): seq<Reading>
    requires forall x | x in outer :: x in inner
  {
    if outer == [] then []
    else [Opens(outer[0])] + EntriesOf(outer[0], inner[outer[0]]) + Transcript(outer[1..], inner)
  }

  // --- the transcript replayed is the check

  lemma {:induction false} EntriesFit(certs: Certificates, x: Id, order: seq<Id>)
    requires x in certs && forall id | id in order :: id in certs[x].commits
    ensures Fits(certs, EntriesOf(x, order))
  {
    if order != [] {
      EntriesFit(certs, x, order[1..]);
    }
  }

  lemma {:induction false} TranscriptFits(certs: Certificates, outer: seq<Id>, inner: map<Id, seq<Id>>)
    requires Within(certs, outer, inner)
    ensures Fits(certs, Transcript(outer, inner))
  {
    if outer != [] {
      EntriesFit(certs, outer[0], inner[outer[0]]);
      TranscriptFits(certs, outer[1..], inner);
    }
  }

  lemma {:induction false} ReplayAppend(lib: Library, epoch: nat, certs: Certificates, c: Check, a: seq<Reading>,
                                        b: seq<Reading>)
    requires Fits(certs, a) && Fits(certs, b)
    ensures Fits(certs, a + b)
    ensures Replay(lib, epoch, certs, c, a + b) == Replay(lib, epoch, certs, Replay(lib, epoch, certs, c, a), b)
  {
    hide Next;
    if b == [] {
      assert a + b == a;
    } else {
      assert (a + b)[..|a + b| - 1] == a + b[..|b| - 1];
      ReplayAppend(lib, epoch, certs, c, a, b[..|b| - 1]);
    }
  }

  lemma ReplayOne(lib: Library, epoch: nat, certs: Certificates, c: Check, r: Reading)
    requires Fits(certs, [r])
    ensures Replay(lib, epoch, certs, c, [r]) == Next(lib, epoch, certs, c, r)
  {
    assert [r][..0] == [];
  }

  lemma {:induction false} StoppedStays(lib: Library, epoch: nat, certs: Certificates, x: Id, order: seq<Id>, c: Check)
    requires x in certs && (forall id | id in order :: id in certs[x].commits) && c.stopped
    ensures Fits(certs, EntriesOf(x, order)) && Replay(lib, epoch, certs, c, EntriesOf(x, order)) == c
  {
    EntriesFit(certs, x, order);
    if order != [] {
      EntriesFit(certs, x, order[1..]);
      ReplayAppend(lib, epoch, certs, c, [Entry(x, order[0])], EntriesOf(x, order[1..]));
      ReplayOne(lib, epoch, certs, c, Entry(x, order[0]));
      StoppedStays(lib, epoch, certs, x, order[1..], c);
    }
  }

  lemma {:induction false} ScanReplays(lib: Library, epoch: nat, certs: Certificates, x: Id, order: seq<Id>, m: Marks)
    requires x in certs && forall id | id in order :: id in certs[x].commits
    ensures Fits(certs, EntriesOf(x, order))
    ensures Replay(lib, epoch, certs, Check(m, false), EntriesOf(x, order)).m
            == Scan(lib, epoch, x, certs[x], order, m)
  {
    EntriesFit(certs, x, order);
    if order != [] {
      var first, rest := Entry(x, order[0]), EntriesOf(x, order[1..]);
      EntriesFit(certs, x, order[1..]);
      ReplayAppend(lib, epoch, certs, Check(m, false), [first], rest);
      ReplayOne(lib, epoch, certs, Check(m, false), first);
      var c := Next(lib, epoch, certs, Check(m, false), first);
      if c.stopped {
        StoppedStays(lib, epoch, certs, x, order[1..], c);
      } else {
        ScanReplays(lib, epoch, certs, x, order[1..], c.m);
      }
    }
  }

  lemma {:induction false} AllReplays(lib: Library, epoch: nat, certs: Certificates, outer: seq<Id>,
                                      inner: map<Id, seq<Id>>, c: Check)
    requires Within(certs, outer, inner)
    ensures Fits(certs, Transcript(outer, inner))
    ensures Replay(lib, epoch, certs, c, Transcript(outer, inner)).m == ScanAll(lib, epoch, certs, outer, inner, c.m)
  {
    hide Scan;
    TranscriptFits(certs, outer, inner);
    if outer != [] {
      var x := outer[0];
      var first, entries, rest := [Opens(x)], EntriesOf(x, inner[x]), Transcript(outer[1..], inner);
      EntriesFit(certs, x, inner[x]);
      TranscriptFits(certs, outer[1..], inner);
      ReplayAppend(lib, epoch, certs, c, first + entries, rest);
      ReplayAppend(lib, epoch, certs, c, first, entries);
      ReplayOne(lib, epoch, certs, c, Opens(x));
      var start := c.(stopped := x in c.m.bad);
      if x in c.m.bad {
        StoppedStays(lib, epoch, certs, x, inner[x], start);
      } else {
        ScanReplays(lib, epoch, certs, x, inner[x], c.m);
      }
      AllReplays(lib, epoch, certs, outer[1..], inner, Replay(lib, epoch, certs, c, first + entries));
    }
  }

  // --- which entries are looked at, and what follows from them

  /** The check before reading `p`. */
  function Before(lib: Library, epoch: nat, certs: Certificates, t: seq<Reading>, p: nat): Check
    requires Fits(certs, t) && p <= |t|
  {
    Replay(lib, epoch, certs, START, t[..p])
  }

  ghost predicate Looked(lib: Library, epoch: nat, certs: Certificates, t: seq<Reading>, p: nat)
    requires Fits(certs, t)
  {
    p < |t| && t[p].Entry? && var c := Before(lib, epoch, certs, t, p); !c.stopped && t[p].id !in c.m.bad
  }

  function Verdict(lib: Library, epoch: nat, certs: Certificates, t: seq<Reading>, p: nat): Flaw
    requires Fits(certs, t) && p < |t| && t[p].Entry?
  {
    Judge(lib, epoch, certs[t[p].x], t[p].id)
  }

  ghost predicate Taken(lib: Library, epoch: nat, certs: Certificates, t: seq<Reading>, p: nat)
    requires Fits(certs, t)
  {
    Looked(lib, epoch, certs, t, p) && Verdict(lib, epoch, certs, t, p).Sound?
  }

  ghost predicate Flawed(lib: Library, epoch: nat, certs: Certificates, t: seq<Reading>, p: nat)
    requires Fits(certs, t)
  {
    Looked(lib, epoch, certs, t, p) && !Verdict(lib, epoch, certs, t, p).Sound?
  }

  /** Readings `p` and `q` are of one author's entry and differ in the commit or the reveal. */
  ghost predicate Clash(certs: Certificates, t: seq<Reading>, p: nat, q: nat)
    requires Fits(certs, t) && p < |t| && q < |t| && t[p].Entry? && t[q].Entry?
  {
    var (a, b, id) := (certs[t[p].x], certs[t[q].x], t[p].id);
    t[q].id == id && (a.commits[id] != b.commits[id] || OpeningOf(a, id) != OpeningOf(b, id))
  }

  function OpeningOf(cert: Document, id: Id): Option<Bytes> {
    if id in cert.openings then Some(cert.openings[id]) else None
  }

  ghost predicate Clashes(lib: Library, epoch: nat, certs: Certificates, t: seq<Reading>, p: nat)
    requires Fits(certs, t) && p < |t| && t[p].Entry?
  {
    exists q :: 0 <= q < p && Taken(lib, epoch, certs, t, q) && Clash(certs, t, p, q)
  }

  /** An entry that is looked at discredits the certificate's author if it is flawed, its own author too if both blobs
      are signed, and its own author if it is sound but an earlier sound one that was looked at differs. */
  ghost predicate Discredits(lib: Library, epoch: nat, certs: Certificates, t: seq<Reading>, p: nat, z: Id)
    requires Fits(certs, t)
  {
    Looked(lib, epoch, certs, t, p)
    && match Verdict(lib, epoch, certs, t, p)
       case Careless => z == t[p].x
       case Shared => z == t[p].x || z == t[p].id
       case Sound => z == t[p].id && Clashes(lib, epoch, certs, t, p)
  }

  // What holds before every reading.

  ghost predicate RecordsTaken(lib: Library, epoch: nat, certs: Certificates, t: seq<Reading>, n: nat)
    requires Fits(certs, t) && n <= |t|
  {
    var m := Before(lib, epoch, certs, t, n).m;
    && m.committed.Keys == m.revealed.Keys
    && (forall id | id in m.committed :: exists q :: 0 <= q < n && Taken(lib, epoch, certs, t, q) && t[q].id == id)
    && (forall q | 0 <= q < n && Taken(lib, epoch, certs, t, q) ::
          t[q].id in m.committed && (t[q].id in m.bad || Recorded(certs, t, q, m)))
  }

  ghost predicate Recorded(certs: Certificates, t: seq<Reading>, q: nat, m: Marks)
    requires Fits(certs, t) && q < |t| && t[q].Entry?
  {
    var (cert, id) := (certs[t[q].x], t[q].id);
    id in m.committed && m.committed[id] == cert.commits[id] && id in m.revealed
      && Some(m.revealed[id]) == OpeningOf(cert, id)
  }

  lemma BeforeNext(lib: Library, epoch: nat, certs: Certificates, t: seq<Reading>, n: nat)
    requires Fits(certs, t) && n < |t|
    ensures Fits(certs, [t[n]])
    ensures Before(lib, epoch, certs, t, n + 1) == Next(lib, epoch, certs, Before(lib, epoch, certs, t, n), t[n])
  {
    assert t[..n + 1][..n] == t[..n];
  }

  lemma {:induction false} RecordsAll(lib: Library, epoch: nat, certs: Certificates, t: seq<Reading>, n: nat)
    requires Fits(certs, t) && n <= |t|
    ensures RecordsTaken(lib, epoch, certs, t, n)
  {
    if n > 0 {
      RecordsAll(lib, epoch, certs, t, n - 1);
      BeforeNext(lib, epoch, certs, t, n - 1);
      RecordsNext(lib, epoch, certs, t, n - 1);
    }
  }

  /** One reading changes what is recorded exactly if its entry is taken. */
  lemma MarksNext(lib: Library, epoch: nat, certs: Certificates, t: seq<Reading>, n: nat)
    requires Fits(certs, t) && n < |t|
    ensures var (m, m') := (Before(lib, epoch, certs, t, n).m, Before(lib, epoch, certs, t, n + 1).m);
            if Taken(lib, epoch, certs, t, n)
            then
              var (cert, id) := (certs[t[n].x], t[n].id);
              id in cert.openings && m' == Record(m, id, cert.commits[id], cert.openings[id])
            else m.bad <= m'.bad && m'.committed == m.committed && m'.revealed == m.revealed
  {
    hide Before;
    BeforeNext(lib, epoch, certs, t, n);
  }

  lemma RecordsNext(lib: Library, epoch: nat, certs: Certificates, t: seq<Reading>, n: nat)
    requires Fits(certs, t) && n < |t| && RecordsTaken(lib, epoch, certs, t, n)
    ensures RecordsTaken(lib, epoch, certs, t, n + 1)
  {
    hide Before, Judge, Replay;
    MarksNext(lib, epoch, certs, t, n);
    var m, m' := Before(lib, epoch, certs, t, n).m, Before(lib, epoch, certs, t, n + 1).m;
    if Taken(lib, epoch, certs, t, n) {
      assert t[n].Entry?;
      var (cert, id) := (certs[t[n].x], t[n].id);
      RecordStep(m, id, cert.commits[id], cert.openings[id]);
      hide Record;
      forall i | i in m'.committed
        ensures exists q :: 0 <= q < n + 1 && Taken(lib, epoch, certs, t, q) && t[q].id == i
      {
        if i in m.committed {
          var q :| 0 <= q < n && Taken(lib, epoch, certs, t, q) && t[q].id == i;
        } else {
          assert t[n].id == i;
        }
      }
    }
  }

  lemma RecordStep(m: Marks, id: Id, commit: Bytes, opening: Bytes)
    requires m.committed.Keys == m.revealed.Keys
    ensures var m' := Record(m, id, commit, opening);
            && m'.committed.Keys == m'.revealed.Keys == m.committed.Keys + {id} && m.bad <= m'.bad <= m.bad + {id}
            && (forall i | i in m.committed :: m'.committed[i] == m.committed[i] && m'.revealed[i] == m.revealed[i])
            && (id in m'.bad || (m'.committed[id] == commit && m'.revealed[id] == opening))
            && (id !in m.committed ==> m'.committed[id] == commit && m'.revealed[id] == opening)
            && (id in m.committed && id !in m.bad ==>
                  (id in m'.bad <==> commit != m.committed[id] || opening != m.revealed[id]))
            && (id !in m.committed ==> m'.bad == m.bad)
  {
  }

  lemma ClashMeans(certs: Certificates, t: seq<Reading>, n: nat, q: nat, m: Marks)
    requires Fits(certs, t) && q < n < |t| && t[n].Entry? && t[q].Entry? && t[q].id == t[n].id
    requires Recorded(certs, t, q, m) && t[n].id in certs[t[n].x].openings
    ensures var (cert, id) := (certs[t[n].x], t[n].id);
            Clash(certs, t, n, q) <==> cert.commits[id] != m.committed[id] || cert.openings[id] != m.revealed[id]
  {
  }

  /** A taken entry discredits its author exactly if an earlier taken one of the author differs. */
  lemma ClashesExactly(lib: Library, epoch: nat, certs: Certificates, t: seq<Reading>, n: nat)
    requires Fits(certs, t) && n < |t| && Taken(lib, epoch, certs, t, n)
    ensures t[n].id in Before(lib, epoch, certs, t, n + 1).m.bad <==> Clashes(lib, epoch, certs, t, n)
  {
    hide Before, Judge, Replay, Fits, Record, RecordsTaken, Clash, Recorded;
    RecordsAll(lib, epoch, certs, t, n);
    MarksNext(lib, epoch, certs, t, n);
    var m, m' := Before(lib, epoch, certs, t, n).m, Before(lib, epoch, certs, t, n + 1).m;
    var id := t[n].id;
    EntryFits(certs, t, n);
    RecordStep(m, id, certs[t[n].x].commits[id], certs[t[n].x].openings[id]);
    if id in m.committed && id in m'.bad {
      var q := TakenBefore(lib, epoch, certs, t, n, id);
      ClashMeans(certs, t, n, q, m);
    }
    if Clashes(lib, epoch, certs, t, n) {
      var q :| 0 <= q < n && Taken(lib, epoch, certs, t, q) && Clash(certs, t, n, q);
      ClashesSame(certs, t, n, q);
      TakenIsRecorded(lib, epoch, certs, t, n, q);
      ClashMeans(certs, t, n, q, m);
    }
  }

  lemma EntryFits(certs: Certificates, t: seq<Reading>, n: nat)
    requires Fits(certs, t) && n < |t| && t[n].Entry?
    ensures t[n].x in certs && t[n].id in certs[t[n].x].commits
  {
  }

  lemma ClashesSame(certs: Certificates, t: seq<Reading>, n: nat, q: nat)
    requires Fits(certs, t) && q < n < |t| && t[n].Entry? && t[q].Entry? && Clash(certs, t, n, q)
    ensures t[q].id == t[n].id
  {
  }

  lemma TakenIsRecorded(lib: Library, epoch: nat, certs: Certificates, t: seq<Reading>, n: nat, q: nat)
    requires Fits(certs, t) && q < n <= |t| && RecordsTaken(lib, epoch, certs, t, n) && Taken(lib, epoch, certs, t, q)
    ensures var m := Before(lib, epoch, certs, t, n).m;
            t[q].id in m.committed && (t[q].id in m.bad || Recorded(certs, t, q, m))
  {
  }

  lemma TakenBefore(lib: Library, epoch: nat, certs: Certificates, t: seq<Reading>, n: nat, id: Id) returns (q: nat)
    requires Fits(certs, t) && n < |t| && RecordsTaken(lib, epoch, certs, t, n)
    requires id in Before(lib, epoch, certs, t, n).m.committed && id !in Before(lib, epoch, certs, t, n).m.bad
    ensures q < n && Taken(lib, epoch, certs, t, q) && t[q].id == id
    ensures Recorded(certs, t, q, Before(lib, epoch, certs, t, n).m)
  {
    hide Before, Judge, Replay;
    q :| 0 <= q < n && Taken(lib, epoch, certs, t, q) && t[q].id == id;
  }

  lemma BadNext(lib: Library, epoch: nat, certs: Certificates, t: seq<Reading>, n: nat, z: Id)
    requires Fits(certs, t) && n < |t|
    ensures z in Before(lib, epoch, certs, t, n + 1).m.bad
            <==> z in Before(lib, epoch, certs, t, n).m.bad || Discredits(lib, epoch, certs, t, n, z)
  {
    hide Before, Replay, Clashes;
    if Taken(lib, epoch, certs, t, n) {
      ClashesExactly(lib, epoch, certs, t, n);
      MarksNext(lib, epoch, certs, t, n);
    } else {
      BeforeNext(lib, epoch, certs, t, n);
    }
  }

  ghost predicate Discredited(lib: Library, epoch: nat, certs: Certificates, t: seq<Reading>, n: nat, z: Id)
    requires Fits(certs, t)
  {
    exists p :: 0 <= p < n && Discredits(lib, epoch, certs, t, p, z)
  }

  lemma {:induction false} BadExactly(lib: Library, epoch: nat, certs: Certificates, t: seq<Reading>, n: nat, z: Id)
    requires Fits(certs, t) && n <= |t|
    ensures z in Before(lib, epoch, certs, t, n).m.bad <==> Discredited(lib, epoch, certs, t, n, z)
  {
    hide Discredits;
    if n > 0 {
      hide Before;
      BadExactly(lib, epoch, certs, t, n - 1, z);
      BadNext(lib, epoch, certs, t, n - 1, z);
    }
  }

  /** The position of the last opening before `n`; -1 if there is none. */
  function OpenedAt(t: seq<Reading>, n: nat): (o: int)
    requires n <= |t|
    ensures -1 <= o < n && (o >= 0 ==> t[o].Opens?) && forall q | o < q < n :: t[q].Entry?
  {
    if n == 0 then -1 else if t[n - 1].Opens? then n - 1 else OpenedAt(t, n - 1)
  }

  /** At `n` the certificate that was opened last is not looked at any more: its author was discredited when it was
      opened, or an entry of it was flawed. */
  ghost predicate Stopped(lib: Library, epoch: nat, certs: Certificates, t: seq<Reading>, n: nat)
    requires Fits(certs, t) && n <= |t|
  {
    var o := OpenedAt(t, n);
    (o >= 0 && Discredited(lib, epoch, certs, t, o, t[o].x)) || FlawedIn(lib, epoch, certs, t, o + 1, n)
  }

  ghost predicate FlawedIn(lib: Library, epoch: nat, certs: Certificates, t: seq<Reading>, lo: nat, n: nat)
    requires Fits(certs, t)
  {
    exists q :: lo <= q < n && Flawed(lib, epoch, certs, t, q)
  }

  lemma StoppedNext(lib: Library, epoch: nat, certs: Certificates, t: seq<Reading>, n: nat)
    requires Fits(certs, t) && n < |t|
    ensures Before(lib, epoch, certs, t, n + 1).stopped <==>
            match t[n]
            case Opens(x) => Discredited(lib, epoch, certs, t, n, x)
            case Entry(_, _) => Before(lib, epoch, certs, t, n).stopped || Flawed(lib, epoch, certs, t, n)
  {
    hide Before, Replay, Discredited;
    BeforeNext(lib, epoch, certs, t, n);
    if t[n].Opens? {
      BadExactly(lib, epoch, certs, t, n, t[n].x);
    }
  }

  lemma {:induction false} StoppedExactly(lib: Library, epoch: nat, certs: Certificates, t: seq<Reading>, n: nat)
    requires Fits(certs, t) && n <= |t|
    ensures Before(lib, epoch, certs, t, n).stopped <==> Stopped(lib, epoch, certs, t, n)
  {
    hide Discredited, Flawed;
    if n > 0 {
      hide Before, Replay;
      StoppedExactly(lib, epoch, certs, t, n - 1);
      StoppedNext(lib, epoch, certs, t, n - 1);
      FlawedInNext(lib, epoch, certs, t, OpenedAt(t, n - 1) + 1, n - 1);
    }
  }

  lemma FlawedInNext(lib: Library, epoch: nat, certs: Certificates, t: seq<Reading>, lo: nat, n: nat)
    requires Fits(certs, t) && lo <= n
    ensures FlawedIn(lib, epoch, certs, t, lo, n + 1)
            <==> FlawedIn(lib, epoch, certs, t, lo, n) || Flawed(lib, epoch, certs, t, n)
    ensures !FlawedIn(lib, epoch, certs, t, n + 1, n + 1)
  {
    hide Flawed;
  }

  /** Which entries are looked at, in terms of those looked at before: the entry's author is not discredited yet, nor
      was the certificate's when it was opened, and no entry of the certificate was flawed so far. */
  lemma LookedExactly(lib: Library, epoch: nat, certs: Certificates, t: seq<Reading>, p: nat)
    requires Fits(certs, t) && p < |t| && t[p].Entry?
    ensures Looked(lib, epoch, certs, t, p)
            <==> !Stopped(lib, epoch, certs, t, p) && !Discredited(lib, epoch, certs, t, p, t[p].id)
  {
    hide Stopped, Discredited, Before;
    StoppedExactly(lib, epoch, certs, t, p);
    BadExactly(lib, epoch, certs, t, p, t[p].id);
  }

  /** The first entry of its author that is taken. */
  ghost predicate FirstTaken(lib: Library, epoch: nat, certs: Certificates, t: seq<Reading>, p: nat)
    requires Fits(certs, t)
  {
    Taken(lib, epoch, certs, t, p)
    && forall q | 0 <= q < p && Taken(lib, epoch, certs, t, q) :: t[q].id != t[p].id
  }

  lemma {:induction false} FirstsStay(lib: Library, epoch: nat, certs: Certificates, t: seq<Reading>, n: nat, p: nat)
    requires Fits(certs, t) && p < n <= |t| && FirstTaken(lib, epoch, certs, t, p)
    ensures Recorded(certs, t, p, Before(lib, epoch, certs, t, n).m)
  {
    hide Before, Judge, Replay, Record, RecordsTaken, Recorded, Fits;
    RecordsAll(lib, epoch, certs, t, n - 1);
    if p < n - 1 {
      FirstsStay(lib, epoch, certs, t, n - 1, p);
      RecordedStays(lib, epoch, certs, t, n - 1, p);
    } else {
      FirstIsNew(lib, epoch, certs, t, p);
      FirstRecorded(lib, epoch, certs, t, p);
    }
  }

  lemma FirstIsNew(lib: Library, epoch: nat, certs: Certificates, t: seq<Reading>, p: nat)
    requires Fits(certs, t) && p < |t| && FirstTaken(lib, epoch, certs, t, p)
    requires RecordsTaken(lib, epoch, certs, t, p)
    ensures t[p].id !in Before(lib, epoch, certs, t, p).m.committed
  {
    hide Before, Judge, Replay;
  }

  lemma FirstRecorded(lib: Library, epoch: nat, certs: Certificates, t: seq<Reading>, p: nat)
    requires Fits(certs, t) && p < |t| && Taken(lib, epoch, certs, t, p) && RecordsTaken(lib, epoch, certs, t, p)
    requires t[p].id !in Before(lib, epoch, certs, t, p).m.committed
    ensures Recorded(certs, t, p, Before(lib, epoch, certs, t, p + 1).m)
  {
    hide Before, Judge, Replay, Record;
    MarksNext(lib, epoch, certs, t, p);
    var (cert, id) := (certs[t[p].x], t[p].id);
    RecordStep(Before(lib, epoch, certs, t, p).m, id, cert.commits[id], cert.openings[id]);
  }

  lemma RecordedStays(lib: Library, epoch: nat, certs: Certificates, t: seq<Reading>, n: nat, p: nat)
    requires Fits(certs, t) && p < n < |t| && t[p].Entry? && RecordsTaken(lib, epoch, certs, t, n)
    requires Recorded(certs, t, p, Before(lib, epoch, certs, t, n).m)
    ensures Recorded(certs, t, p, Before(lib, epoch, certs, t, n + 1).m)
  {
    hide Before, Judge, Replay, Record;
    MarksNext(lib, epoch, certs, t, n);
    if Taken(lib, epoch, certs, t, n) {
      var (cert, id) := (certs[t[n].x], t[n].id);
      RecordStep(Before(lib, epoch, certs, t, n).m, id, cert.commits[id], cert.openings[id]);
    }
  }

  /** The result of the check, whatever the order of the visits: discredited is exactly who is discredited by an entry
      that is looked at, and recorded is exactly each author's first entry that is taken. */
  lemma FoundExactly(lib: Library, epoch: nat, certs: Certificates, outer: seq<Id>, inner: map<Id, seq<Id>>, z: Id)
    requires Visits(certs, outer, inner)
    ensures Within(certs, outer, inner) && Fits(certs, Transcript(outer, inner))
    ensures var (m, t) := (Found(lib, epoch, certs, outer, inner), Transcript(outer, inner));
            && (z in m.bad <==> exists p :: 0 <= p < |t| && Discredits(lib, epoch, certs, t, p, z))
            && m.committed.Keys == m.revealed.Keys
            && (z in m.committed <==> exists p :: 0 <= p < |t| && Taken(lib, epoch, certs, t, p) && t[p].id == z)
            && (forall p | 0 <= p < |t| && FirstTaken(lib, epoch, certs, t, p) :: Recorded(certs, t, p, m))
  {
    hide Replay, Recorded, Discredits, ScanAll, Visits, Within, Fits, Judge;
    VisitsWithin(certs, outer, inner);
    AllReplays(lib, epoch, certs, outer, inner, START);
    var t := Transcript(outer, inner);
    assert t[..|t|] == t;
    BadExactly(lib, epoch, certs, t, |t|, z);
    RecordsAll(lib, epoch, certs, t, |t|);
    forall p | 0 <= p < |t| && FirstTaken(lib, epoch, certs, t, p)
      ensures Recorded(certs, t, p, Before(lib, epoch, certs, t, |t|).m)
    {
      FirstsStay(lib, epoch, certs, t, |t|, p);
    }
  }

  /** What the verdicts mean. An entry is sound if commit and reveal are signed by its author, who is known, the commit
      is for this epoch and the reveal opens it; it discredits its author if the two are signed but do not fit. */
  lemma VerdictExactly(lib: Library, epoch: nat, cert: Document, id: Id)
    requires id in cert.commits
    ensures var (flaw, commit, opening) := (Judge(lib, epoch, cert, id), cert.commits[id], OpeningOf(cert, id));
            var signed := id in lib.known && lib.verify(id, commit).Some?
                          && opening.Some? && lib.verify(id, opening.value).Some?;
            && (flaw.Careless? <==> !signed)
            && (flaw.Sound? <==> opening.Some? && Lists(lib, epoch, cert, id, commit, opening.value))
            && (flaw.Shared? <==> signed && !Lists(lib, epoch, cert, id, commit, opening.value))
  {
  }
}
