/** The commit-and-reveal check of the voting protocol. Go visits maps in an arbitrary order and the check stops
    reading a certificate at its first flaw, so the order can matter; it is a parameter here. */
module SharedRandom {
  import opened Prelude
  import opened Pki

  /** The library functions of the check and the authorities it knows. `verify` opens a blob signed by an authority;
      `commitEpoch` and `opens` read a commit; `certified` is the content of a blob without regard to its signature. */
  datatype Library = Library(
    known: set<Id>,
    verify: (Id, Bytes) -> Option<Bytes>,
    commitEpoch: Bytes -> nat,
    opens: (Bytes, Bytes) -> bool,
    certified: Bytes -> Option<Bytes>)

  /** The certificates of one epoch, by author. */
  type Certificates = map<Id, Document>

  /** What the check has found out: bad authorities, and the first commit and reveal seen of each author. */
  datatype Marks = Marks(bad: set<Id>, committed: map<Id, Bytes>, revealed: map<Id, Bytes>)

  /** Whom an entry of a certificate discredits: nobody, the certificate's author, or also the author of the entry. */
  datatype Flaw = Sound | Careless | Shared

  // --- one entry

  function Judge(lib: Library, epoch: nat, cert: Document, id: Id): Flaw
    requires id in cert.commits
  {
    if !SignedEntry(lib, cert, id) then Careless
    else
      var commit := lib.verify(id, cert.commits[id]).value;
      if lib.commitEpoch(commit) == epoch
        && lib.opens(commit, lib.verify(id, cert.openings[id]).value) then Sound else Shared
  }

  /** Commit and reveal are there and signed by the known authority `id`. */
  predicate SignedEntry(lib: Library, cert: Document, id: Id)
    requires id in cert.commits
  {
    && id in lib.known && lib.verify(id, cert.commits[id]).Some?
    && id in cert.openings && lib.verify(id, cert.openings[id]).Some?
  }

  /** Keeps the first commit and reveal; a different later one discredits their author. */
  function Record(m: Marks, id: Id, commit: Bytes, opening: Bytes): Marks {
    Marks(if Differs(m.committed, id, commit) || Differs(m.revealed, id, opening) then m.bad + {id} else m.bad,
          First(m.committed, id, commit), First(m.revealed, id, opening))
  }

  predicate Differs(seen: map<Id, Bytes>, id: Id, blob: Bytes) {
    id in seen && seen[id] != blob
  }

  function First(seen: map<Id, Bytes>, id: Id, blob: Bytes): map<Id, Bytes> {
    if id in seen then seen else seen[id := blob]
  }

  // --- one certificate, and all of them

  function Scan(lib: Library, epoch: nat, author: Id, cert: Document, order: seq<Id>, m: Marks): Marks
    requires forall id | id in order :: id in cert.commits
  {
    if order == [] then m
    else if order[0] in m.bad then Scan(lib, epoch, author, cert, order[1..], m)
    else
      match Judge(lib, epoch, cert, order[0])
      case Careless => m.(bad := m.bad + {author})
      case Shared => m.(bad := m.bad + {author, order[0]})
      case Sound =>
        Scan(lib, epoch, author, cert, order[1..], Record(m, order[0], cert.commits[order[0]], cert.openings[order[0]]))
  }

  /** `order` lists the keys, each once. */
  predicate IsOrder(order: seq<Id>, keys: set<Id>) {
    Elements(order) == keys && |order| == |keys|
  }

  /** An order in which the maps can be visited: of the certificates, and within each of its commits. */
  predicate Visits(certs: Certificates, outer: seq<Id>, inner: map<Id, seq<Id>>) {
    && IsOrder(outer, certs.Keys)
    && forall x | x in certs :: x in inner && IsOrder(inner[x], certs[x].commits.Keys)
  }

  predicate Within(certs: Certificates, outer: seq<Id>, inner: map<Id, seq<Id>>) {
    forall x | x in outer :: x in certs && x in inner && forall id | id in inner[x] :: id in certs[x].commits
  }

  function ScanAll(lib: Library, epoch: nat, certs: Certificates, outer: seq<Id>, inner: map<Id, seq<Id>>,
                   m: Marks): Marks
    requires Within(certs, outer, inner)
  {
    if outer == [] then m
    else
      var x := outer[0];
      ScanAll(lib, epoch, certs, outer[1..], inner,
        if x in m.bad then m else Scan(lib, epoch, x, certs[x], inner[x], m))
  }

  const FRESH: Marks := Marks({}, map[], map[])

  lemma VisitsWithin(certs: Certificates, outer: seq<Id>, inner: map<Id, seq<Id>>)
    requires Visits(certs, outer, inner)
    ensures Within(certs, outer, inner)
  {
    forall x | x in outer ensures x in certs {
      assert x in Elements(outer);
    }
  }

  function Found(lib: Library, epoch: nat, certs: Certificates, outer: seq<Id>, inner: map<Id, seq<Id>>): Marks
    requires Visits(certs, outer, inner)
  {
    VisitsWithin(certs, outer, inner);
    ScanAll(lib, epoch, certs, outer, inner, FRESH)
  }

  /** The commits and reveals that count. */
  function Accepted(lib: Library, epoch: nat, certs: Certificates, outer: seq<Id>, inner: map<Id, seq<Id>>)
    : (map<Id, Bytes>, map<Id, Bytes>)
    requires Visits(certs, outer, inner)
  {
    var m := Found(lib, epoch, certs, outer, inner);
    (m.committed - m.bad, m.revealed - m.bad)
  }

  // --- the check as it runs

  method ScanCertificate(lib: Library, epoch: nat, author: Id, cert: Document, order: seq<Id>, m: Marks)
    returns (m': Marks)
    requires forall id | id in order :: id in cert.commits
    ensures m' == Scan(lib, epoch, author, cert, order, m)
  {
    var badnodes, committed, revealed := m.bad, m.committed, m.revealed;
    for i := 0 to |order|
      invariant Scan(lib, epoch, author, cert, order[i..], Marks(badnodes, committed, revealed))
                == Scan(lib, epoch, author, cert, order, m)
    {
      var pk2 := order[i];
      assert order[i..][0] == pk2 && order[i..][1..] == order[i + 1..];
      if pk2 in badnodes { continue; }
      if pk2 !in lib.known {
        return Marks(badnodes + {author}, committed, revealed);
      }
      var signedCommit := cert.commits[pk2];
      var commit := lib.verify(pk2, signedCommit);
      if commit.None? {
        return Marks(badnodes + {author}, committed, revealed);
      }
      if pk2 !in cert.openings {
        return Marks(badnodes + {author}, committed, revealed);
      }
      var signedReveal := cert.openings[pk2];
      var opening := lib.verify(pk2, signedReveal);
      if opening.None? {
        return Marks(badnodes + {author}, committed, revealed);
      }
      if lib.commitEpoch(commit.value) != epoch {
        return Marks(badnodes + {author, pk2}, committed, revealed);
      }
      if !lib.opens(commit.value, opening.value) {
        return Marks(badnodes + {author, pk2}, committed, revealed);
      }
      ghost var before := Marks(badnodes, committed, revealed);
      if pk2 in committed {
        if signedCommit != committed[pk2] {
          badnodes := badnodes + {pk2};
        }
      } else {
        committed := committed[pk2 := signedCommit];
      }
      if pk2 in revealed {
        if signedReveal != revealed[pk2] {
          badnodes := badnodes + {pk2};
        }
      } else {
        revealed := revealed[pk2 := signedReveal];
      }
      assert Marks(badnodes, committed, revealed) == Record(before, pk2, signedCommit, signedReveal);
    }
    m' := Marks(badnodes, committed, revealed);
  }

  method VerifyCommits(lib: Library, epoch: nat, certs: Certificates, outer: seq<Id>, inner: map<Id, seq<Id>>)
    returns (committed: map<Id, Bytes>, revealed: map<Id, Bytes>)
    requires Visits(certs, outer, inner)
    ensures (committed, revealed) == Accepted(lib, epoch, certs, outer, inner)
  {
    VisitsWithin(certs, outer, inner);
    var m := FRESH;
    for i := 0 to |outer|
      invariant ScanAll(lib, epoch, certs, outer[i..], inner, m) == ScanAll(lib, epoch, certs, outer, inner, FRESH)
    {
      var pk := outer[i];
      assert outer[i..][0] == pk && outer[i..][1..] == outer[i + 1..];
      if pk in m.bad { continue; }
      assert forall id | id in inner[pk] :: id in Elements(inner[pk]);
      m := ScanCertificate(lib, epoch, pk, certs[pk], inner[pk], m);
    }
    committed, revealed := m.committed - m.bad, m.revealed - m.bad;
  }

  // --- what every order of visits keeps

  /** `m'` knows all that `m` knew. */
  ghost predicate Extends(m: Marks, m': Marks) {
    && m.bad <= m'.bad
    && (forall id | id in m.committed :: id in m'.committed && m'.committed[id] == m.committed[id])
    && (forall id | id in m.revealed :: id in m'.revealed && m'.revealed[id] == m.revealed[id])
  }

  /** The certificate lists `id` with the recorded commit and reveal, and its entry is sound. */
  ghost predicate Backs(lib: Library, epoch: nat, cert: Document, m: Marks, id: Id) {
    && id in cert.commits && Judge(lib, epoch, cert, id).Sound?
    && id in m.committed && m.committed[id] == cert.commits[id]
    && id in m.revealed && m.revealed[id] == cert.openings[id]
  }

  lemma RecordFacts(lib: Library, epoch: nat, cert: Document, id: Id, m: Marks)
    requires id in cert.commits && Judge(lib, epoch, cert, id).Sound? && m.committed.Keys == m.revealed.Keys
    ensures var m' := Record(m, id, cert.commits[id], cert.openings[id]);
            && Extends(m, m') && m'.committed.Keys == m'.revealed.Keys == m.committed.Keys + {id}
            && m'.bad <= m.bad + {id}
            && (id in m'.bad || Backs(lib, epoch, cert, m', id))
            && (id !in m.committed ==> Backs(lib, epoch, cert, m', id))
  {
  }

  /** A certificate only adds to what is known; what it adds it backs; and unless it is discredited itself, it backs
      all of its entries whose authors are not. */
  lemma {:induction false} ScanFacts(lib: Library, epoch: nat, author: Id, cert: Document, order: seq<Id>, m: Marks)
    requires (forall id | id in order :: id in cert.commits) && m.committed.Keys == m.revealed.Keys
    ensures var m' := Scan(lib, epoch, author, cert, order, m);
            && Extends(m, m') && m'.committed.Keys == m'.revealed.Keys
            && (forall id | id in m'.committed && id !in m.committed :: Backs(lib, epoch, cert, m', id))
            && (author !in m'.bad ==> forall id | id in order && id !in m'.bad :: Backs(lib, epoch, cert, m', id))
  {
    if order != [] && order[0] in m.bad {
      ScanFacts(lib, epoch, author, cert, order[1..], m);
    } else if order != [] && Judge(lib, epoch, cert, order[0]).Sound? {
      var id := order[0];
      RecordFacts(lib, epoch, cert, id, m);
      ScanFacts(lib, epoch, author, cert, order[1..], Record(m, id, cert.commits[id], cert.openings[id]));
    }
  }

  /** What holds after the certificates of `seen`: commits and reveals have the same keys, each recorded pair is backed
      by a certificate, and each certificate that is not discredited backs all its entries that are not. */
  ghost predicate Consistent(lib: Library, epoch: nat, certs: Certificates, seen: set<Id>, m: Marks) {
    && m.committed.Keys == m.revealed.Keys
    && (forall id | id in m.committed :: exists x :: x in certs && Backs(lib, epoch, certs[x], m, id))
    && (forall x, id | x in certs && x in seen && x !in m.bad && id in certs[x].commits && id !in m.bad ::
          Backs(lib, epoch, certs[x], m, id))
  }

  lemma BacksExtends(lib: Library, epoch: nat, cert: Document, m: Marks, m': Marks, id: Id)
    requires Backs(lib, epoch, cert, m, id) && Extends(m, m')
    ensures Backs(lib, epoch, cert, m', id)
  {
  }

  lemma ConsistentNext(lib: Library, epoch: nat, certs: Certificates, inner: map<Id, seq<Id>>, seen: set<Id>, x: Id,
                       m: Marks)
    requires Within(certs, [x], inner) && Elements(inner[x]) == certs[x].commits.Keys
             && Consistent(lib, epoch, certs, seen, m)
    requires x !in m.bad
    ensures Consistent(lib, epoch, certs, seen + {x}, Scan(lib, epoch, x, certs[x], inner[x], m))
  {
    assert x in [x];
    var m' := Scan(lib, epoch, x, certs[x], inner[x], m);
    ScanFacts(lib, epoch, x, certs[x], inner[x], m);
    forall id | id in m'.committed ensures exists y :: y in certs && Backs(lib, epoch, certs[y], m', id) {
      if id in m.committed {
        var y :| y in certs && Backs(lib, epoch, certs[y], m, id);
        BacksExtends(lib, epoch, certs[y], m, m', id);
      } else {
        assert Backs(lib, epoch, certs[x], m', id);
      }
    }
    forall y, id | y in certs && y in seen + {x} && y !in m'.bad && id in certs[y].commits && id !in m'.bad
      ensures Backs(lib, epoch, certs[y], m', id)
    {
      if y in seen {
        BacksExtends(lib, epoch, certs[y], m, m', id);
      } else {
        assert id in Elements(inner[x]);
      }
    }
  }

  lemma {:induction false} ScanAllFacts(lib: Library, epoch: nat, certs: Certificates, outer: seq<Id>,
                                        inner: map<Id, seq<Id>>, seen: set<Id>, m: Marks)
    requires Within(certs, outer, inner) && forall x | x in outer :: Elements(inner[x]) == certs[x].commits.Keys
    requires Consistent(lib, epoch, certs, seen, m)
    ensures var m' := ScanAll(lib, epoch, certs, outer, inner, m);
            Extends(m, m') && Consistent(lib, epoch, certs, seen + Elements(outer), m')
  {
    if outer == [] {
      assert seen + Elements(outer) == seen;
    } else {
      var x := outer[0];
      assert outer == [x] + outer[1..];
      assert seen + Elements(outer) == seen + {x} + Elements(outer[1..]);
      var m1 := if x in m.bad then m else Scan(lib, epoch, x, certs[x], inner[x], m);
      if x !in m.bad {
        ScanFacts(lib, epoch, x, certs[x], inner[x], m);
        ConsistentNext(lib, epoch, certs, inner, seen, x, m);
      }
      ScanAllFacts(lib, epoch, certs, outer[1..], inner, seen + {x}, m1);
    }
  }

  lemma FoundFacts(lib: Library, epoch: nat, certs: Certificates, outer: seq<Id>, inner: map<Id, seq<Id>>)
    requires Visits(certs, outer, inner)
    ensures Consistent(lib, epoch, certs, certs.Keys, Found(lib, epoch, certs, outer, inner))
  {
    VisitsWithin(certs, outer, inner);
    ScanAllFacts(lib, epoch, certs, outer, inner, {}, FRESH);
    assert {} + Elements(outer) == certs.Keys;
  }

  // --- theorems about every order

  /** Commits and reveals always have the same authors; each accepted pair is a sound entry of some certificate; and a
      certificate that is not discredited agrees with all of them: of its entries exactly those of discredited authors
      are missing. */
  lemma AcceptedIsConsistent(lib: Library, epoch: nat, certs: Certificates, outer: seq<Id>, inner: map<Id, seq<Id>>)
    requires Visits(certs, outer, inner)
    ensures var (committed, revealed) := Accepted(lib, epoch, certs, outer, inner);
            var bad := Found(lib, epoch, certs, outer, inner).bad;
            && committed.Keys == revealed.Keys
            && (forall id | id in committed ::
                  exists x :: x in certs && Lists(lib, epoch, certs[x], id, committed[id], revealed[id]))
            && (forall x, id | x in certs && x !in bad && id in certs[x].commits ::
                  if id in bad then id !in committed
                  else id in committed && Lists(lib, epoch, certs[x], id, committed[id], revealed[id]))
  {
    FoundFacts(lib, epoch, certs, outer, inner);
    hide Found;
    var m := Found(lib, epoch, certs, outer, inner);
    forall id | id in m.committed && id !in m.bad
      ensures exists x :: x in certs && Lists(lib, epoch, certs[x], id, m.committed[id], m.revealed[id])
    {
      var x :| x in certs && Backs(lib, epoch, certs[x], m, id);
      BacksLists(lib, epoch, certs[x], m, id);
    }
    forall x, id | x in certs && x !in m.bad && id in certs[x].commits && id !in m.bad
      ensures id in m.committed && Lists(lib, epoch, certs[x], id, m.committed[id], m.revealed[id])
    {
      BacksLists(lib, epoch, certs[x], m, id);
    }
  }

  lemma BacksLists(lib: Library, epoch: nat, cert: Document, m: Marks, id: Id)
    requires Backs(lib, epoch, cert, m, id)
    ensures Lists(lib, epoch, cert, id, m.committed[id], m.revealed[id])
  {
  }

  /** The certificate has a sound entry for `id`: both blobs are signed by `id`, the commit is for this epoch and the
      other blob opens it. */
  ghost predicate Lists(lib: Library, epoch: nat, cert: Document, id: Id, commit: Bytes, opening: Bytes) {
    && id in cert.commits && cert.commits[id] == commit && id in cert.openings && cert.openings[id] == opening
    && id in lib.known
    && var (c, o) := (lib.verify(id, commit), lib.verify(id, opening));
    && c.Some? && o.Some? && lib.commitEpoch(c.value) == epoch && lib.opens(c.value, o.value)
  }

  // --- an honest authority

  /** Every entry of the authority's own certificate is sound, and no certificate has another pair of blobs that the
      authority signed. */
  ghost predicate Undisputed(lib: Library, epoch: nat, certs: Certificates, h: Id)
    requires h in certs && h in certs[h].commits
  {
    && (forall id | id in certs[h].commits :: Judge(lib, epoch, certs[h], id).Sound?)
    && (forall x | x in certs && h in certs[x].commits && SignedEntry(lib, certs[x], h) ::
          certs[x].commits[h] == certs[h].commits[h] && certs[x].openings[h] == certs[h].openings[h])
  }

  /** So far `h` is neither discredited nor recorded with anything but its own entry. */
  ghost predicate Clear(certs: Certificates, h: Id, m: Marks)
    requires h in certs && h in certs[h].commits && h in certs[h].openings
  {
    && h !in m.bad
    && (h in m.committed ==> m.committed[h] == certs[h].commits[h])
    && (h in m.revealed ==> m.revealed[h] == certs[h].openings[h])
  }

  lemma {:induction false} ScanStaysClear(lib: Library, epoch: nat, certs: Certificates, h: Id, x: Id, order: seq<Id>,
                                          m: Marks)
    requires h in certs && h in certs[h].commits && Undisputed(lib, epoch, certs, h) && Clear(certs, h, m)
    requires x in certs && forall id | id in order :: id in certs[x].commits
    ensures Clear(certs, h, Scan(lib, epoch, x, certs[x], order, m))
  {
    if order != [] && order[0] in m.bad {
      ScanStaysClear(lib, epoch, certs, h, x, order[1..], m);
    } else if order != [] && Judge(lib, epoch, certs[x], order[0]).Sound? {
      ScanStaysClear(lib, epoch, certs, h, x, order[1..],
                     Record(m, order[0], certs[x].commits[order[0]], certs[x].openings[order[0]]));
    }
  }

  lemma {:induction false} AllStayClear(lib: Library, epoch: nat, certs: Certificates, h: Id, outer: seq<Id>,
                                        inner: map<Id, seq<Id>>, m: Marks)
    requires h in certs && h in certs[h].commits && Undisputed(lib, epoch, certs, h) && Clear(certs, h, m)
    requires Within(certs, outer, inner)
    ensures Clear(certs, h, ScanAll(lib, epoch, certs, outer, inner, m))
  {
    if outer != [] {
      var x := outer[0];
      if x !in m.bad {
        ScanStaysClear(lib, epoch, certs, h, x, inner[x], m);
      }
      AllStayClear(lib, epoch, certs, h, outer[1..], inner,
        if x in m.bad then m else Scan(lib, epoch, x, certs[x], inner[x], m));
    }
  }

  lemma UndisputedIsAccepted(lib: Library, epoch: nat, certs: Certificates, h: Id, outer: seq<Id>,
                             inner: map<Id, seq<Id>>)
    requires h in certs && h in certs[h].commits && Undisputed(lib, epoch, certs, h) && Visits(certs, outer, inner)
    ensures h in Accepted(lib, epoch, certs, outer, inner).0
  {
    VisitsWithin(certs, outer, inner);
    AllStayClear(lib, epoch, certs, h, outer, inner, FRESH);
    FoundFacts(lib, epoch, certs, outer, inner);
    assert Backs(lib, epoch, certs[h], Found(lib, epoch, certs, outer, inner), h);
  }

  // Orders that exclude an authority whose entry is disputed.

  lemma {:induction false} OrderFrom(keys: set<Id>, front: seq<Id>) returns (order: seq<Id>)
    requires Elements(front) <= keys && |Elements(front)| == |front|
    ensures IsOrder(order, keys) && front <= order
    decreases |keys| - |front|
  {
    SubsetCardinality(Elements(front), keys);
    if Elements(front) == keys {
      order := front;
    } else {
      var x :| x in keys - Elements(front);
      assert Elements(front + [x]) == Elements(front) + {x};
      order := OrderFrom(keys, front + [x]);
    }
  }

  lemma EntriesFrom(keys: set<Id>, first: Option<Id>) returns (order: seq<Id>)
    requires first.Some? ==> first.value in keys
    ensures IsOrder(order, keys) && (first.Some? ==> order != [] && order[0] == first.value)
  {
    var front := if first.Some? then [first.value] else [];
    assert Elements(front) == if first.Some? then {first.value} else {};
    order := OrderFrom(keys, front);
  }

  /** An order in which the certificates in `front` come first, and in each certificate its entry of `firsts`. */
  lemma VisitFrom(certs: Certificates, front: seq<Id>, firsts: map<Id, Id>)
    returns (outer: seq<Id>, inner: map<Id, seq<Id>>)
    requires Elements(front) <= certs.Keys && |Elements(front)| == |front|
    requires forall x | x in firsts :: x in certs && firsts[x] in certs[x].commits
    ensures Visits(certs, outer, inner) && front <= outer
    ensures forall x | x in firsts :: inner[x] != [] && inner[x][0] == firsts[x]
  {
    outer := OrderFrom(certs.Keys, front);
    inner := map[];
    hide IsOrder;
    var todo := certs.Keys;
    while todo != {}
      invariant todo + inner.Keys == certs.Keys
      invariant forall x | x in inner :: IsOrder(inner[x], certs[x].commits.Keys)
      invariant forall x | x in firsts && x in inner :: inner[x] != [] && inner[x][0] == firsts[x]
      decreases todo
    {
      var x :| x in todo;
      var order := EntriesFrom(certs[x].commits.Keys, if x in firsts then Some(firsts[x]) else None);
      inner := inner[x := order];
      todo := todo - {x};
    }
  }

  lemma {:induction false} ScanAllExtends(lib: Library, epoch: nat, certs: Certificates, outer: seq<Id>,
                                          inner: map<Id, seq<Id>>, m: Marks)
    requires Within(certs, outer, inner) && m.committed.Keys == m.revealed.Keys
    ensures var m' := ScanAll(lib, epoch, certs, outer, inner, m);
            Extends(m, m') && m'.committed.Keys == m'.revealed.Keys
  {
    if outer != [] {
      var x := outer[0];
      if x !in m.bad {
        ScanFacts(lib, epoch, x, certs[x], inner[x], m);
      }
      ScanAllExtends(lib, epoch, certs, outer[1..], inner,
        if x in m.bad then m else Scan(lib, epoch, x, certs[x], inner[x], m));
    }
  }

  /** A flaw in its own certificate excludes the authority if the flaw is the first thing that is read. */
  lemma OwnFlawExcludes(lib: Library, epoch: nat, certs: Certificates, h: Id, y: Id)
    returns (outer: seq<Id>, inner: map<Id, seq<Id>>)
    requires h in certs && y in certs[h].commits && !Judge(lib, epoch, certs[h], y).Sound?
    ensures Visits(certs, outer, inner) && h in Found(lib, epoch, certs, outer, inner).bad
  {
    assert Elements([h]) == {h};
    outer, inner := VisitFrom(certs, [h], map[h := y]);
    VisitsWithin(certs, outer, inner);
    assert outer[0] == h && inner[h][0] == y;
    ScanFacts(lib, epoch, h, certs[h], inner[h], FRESH);
    ScanAllExtends(lib, epoch, certs, outer[1..], inner, Scan(lib, epoch, h, certs[h], inner[h], FRESH));
  }

  /** After a certificate with another pair of its signed blobs, reading its own certificate excludes the authority. */
  lemma OtherPairExcludes(lib: Library, epoch: nat, certs: Certificates, h: Id, x: Id)
    returns (outer: seq<Id>, inner: map<Id, seq<Id>>)
    requires h in certs && x in certs && x != h && h in certs[h].commits && h in certs[x].commits
    requires Judge(lib, epoch, certs[h], h).Sound? && SignedEntry(lib, certs[x], h)
    requires certs[x].commits[h] != certs[h].commits[h] || certs[x].openings[h] != certs[h].openings[h]
    ensures Visits(certs, outer, inner) && h in Found(lib, epoch, certs, outer, inner).bad
  {
    assert Elements([x, h]) == {x, h};
    outer, inner := VisitFrom(certs, [x, h], map[x := h, h := h]);
    VisitsWithin(certs, outer, inner);
    hide Scan, Judge;
    assert outer[0] == x && outer[1] == h;
    ClashExcludes(lib, epoch, certs, h, x, inner);
    FirstTwo(lib, epoch, certs, outer, inner);
  }

  /** Reading all certificates extends what reading the first two found out. */
  lemma FirstTwo(lib: Library, epoch: nat, certs: Certificates, outer: seq<Id>, inner: map<Id, seq<Id>>)
    requires Within(certs, outer, inner) && |outer| >= 2
    ensures var (x, h) := (outer[0], outer[1]);
            var m1 := Scan(lib, epoch, x, certs[x], inner[x], FRESH);
            var m2 := if h in m1.bad then m1 else Scan(lib, epoch, h, certs[h], inner[h], m1);
            Extends(m2, ScanAll(lib, epoch, certs, outer, inner, FRESH))
  {
    hide Scan, Judge;
    var x, h := outer[0], outer[1];
    ScanFacts(lib, epoch, x, certs[x], inner[x], FRESH);
    var m1 := Scan(lib, epoch, x, certs[x], inner[x], FRESH);
    ScanFacts(lib, epoch, h, certs[h], inner[h], m1);
    var m2 := if h in m1.bad then m1 else Scan(lib, epoch, h, certs[h], inner[h], m1);
    assert outer[1..][0] == h && outer[1..][1..] == outer[2..];
    ScanAllExtends(lib, epoch, certs, outer[2..], inner, m2);
  }

  lemma ClashExcludes(lib: Library, epoch: nat, certs: Certificates, h: Id, x: Id, inner: map<Id, seq<Id>>)
    requires h in certs && x in certs && h in certs[h].commits && h in certs[x].commits
    requires Within(certs, [x, h], inner) && inner[x] != [] && inner[x][0] == h && inner[h] != [] && inner[h][0] == h
    requires Judge(lib, epoch, certs[h], h).Sound? && SignedEntry(lib, certs[x], h)
    requires certs[x].commits[h] != certs[h].commits[h] || certs[x].openings[h] != certs[h].openings[h]
    ensures var m1 := Scan(lib, epoch, x, certs[x], inner[x], FRESH);
            var m2 := if h in m1.bad then m1 else Scan(lib, epoch, h, certs[h], inner[h], m1);
            h in m2.bad && m2.committed.Keys == m2.revealed.Keys
  {
    ScanFacts(lib, epoch, x, certs[x], inner[x], FRESH);
    var m1 := Scan(lib, epoch, x, certs[x], inner[x], FRESH);
    if Judge(lib, epoch, certs[x], h).Sound? {
      var first := Record(FRESH, h, certs[x].commits[h], certs[x].openings[h]);
      ScanFacts(lib, epoch, x, certs[x], inner[x][1..], first);
      assert Extends(first, m1);
    }
    if h !in m1.bad {
      ScanFacts(lib, epoch, h, certs[h], inner[h], m1);
      var second := Record(m1, h, certs[h].commits[h], certs[h].openings[h]);
      assert h in second.bad;
      ScanFacts(lib, epoch, h, certs[h], inner[h][1..], second);
    }
  }

  /** An authority that lists itself in its own certificate is accepted in every order in which the maps may be visited
      exactly if it is undisputed. */
  lemma AlwaysAcceptedExactly(lib: Library, epoch: nat, certs: Certificates, h: Id)
    requires h in certs && h in certs[h].commits
    ensures Undisputed(lib, epoch, certs, h) <==>
            forall outer, inner | Visits(certs, outer, inner) :: h in Accepted(lib, epoch, certs, outer, inner).0
  {
    hide Found, Visits;
    if Undisputed(lib, epoch, certs, h) {
      forall outer, inner | Visits(certs, outer, inner) ensures h in Accepted(lib, epoch, certs, outer, inner).0 {
        UndisputedIsAccepted(lib, epoch, certs, h, outer, inner);
      }
    } else {
      var outer, inner := DisputeExcludes(lib, epoch, certs, h);
      assert h !in Accepted(lib, epoch, certs, outer, inner).0;
    }
  }

  lemma DisputeExcludes(lib: Library, epoch: nat, certs: Certificates, h: Id)
    returns (outer: seq<Id>, inner: map<Id, seq<Id>>)
    requires h in certs && h in certs[h].commits && !Undisputed(lib, epoch, certs, h)
    ensures Visits(certs, outer, inner) && h in Found(lib, epoch, certs, outer, inner).bad
  {
    hide Found, Visits;
    if y :| y in certs[h].commits && !Judge(lib, epoch, certs[h], y).Sound? {
      outer, inner := OwnFlawExcludes(lib, epoch, certs, h, y);
    } else {
      var x :| x in certs && h in certs[x].commits && SignedEntry(lib, certs[x], h) &&
               (certs[x].commits[h] != certs[h].commits[h] || certs[x].openings[h] != certs[h].openings[h]);
      outer, inner := OtherPairExcludes(lib, epoch, certs, h, x);
    }
  }

  /** Signing nothing but one commit and its reveal does not protect an authority. Authority 1 signs the blobs [1] and
      [2] only, and its own certificate is sound; but authority 2 presents the reveal in the place of the commit, the
      signature on it is good, and both are discredited. */
  lemma HonestAuthorityExcluded() returns (lib: Library, certs: Certificates, outer: seq<Id>, inner: map<Id, seq<Id>>)
    ensures forall blob :: lib.verify(1, blob).Some? ==> blob == [1] || blob == [2]
    ensures 1 in certs && 1 in certs[1].commits && certs[1].commits[1] == [1] && Judge(lib, 7, certs[1], 1).Sound?
    ensures forall id | id in certs[1].commits :: Judge(lib, 7, certs[1], id).Sound?
    ensures Visits(certs, outer, inner) && 1 !in Accepted(lib, 7, certs, outer, inner).0
  {
    hide Found, Visits;
    lib := Library({1, 2}, (id, blob) => if blob == [1] || blob == [2] then Some(blob) else None, blob => 7,
                   (commit, opening) => commit == [1] && opening == [2], blob => Some(blob));
    var blank := Document(7, 7, [], 0, [], [], [], [], [], [], [], "", "", map[], map[], {});
    certs := map[1 := blank.(commits := map[1 := [1]], openings := map[1 := [2]]),
                 2 := blank.(commits := map[1 := [2]], openings := map[1 := [2]])];
    outer, inner := OtherPairExcludes(lib, 7, certs, 1, 2);
  }

  // --- certificates without flaws

  /** Every entry of every certificate is sound, and certificates agree on the authors they both list. */
  ghost predicate Clean(lib: Library, epoch: nat, certs: Certificates) {
    && (forall x, id | x in certs && id in certs[x].commits :: Judge(lib, epoch, certs[x], id).Sound?)
    && (forall x, y, id | x in certs && y in certs && id in certs[x].commits && id in certs[y].commits ::
          certs[x].commits[id] == certs[y].commits[id] && certs[x].openings[id] == certs[y].openings[id])
  }

  /** Nobody is discredited and what is recorded is what the certificates list. */
  ghost predicate Untroubled(certs: Certificates, m: Marks) {
    && m.bad == {}
    && (forall x, id | x in certs && id in certs[x].commits
       && id in m.committed :: certs[x].commits[id] == m.committed[id])
    && (forall x, id | x in certs && id in certs[x].commits && id in certs[x].openings && id in m.revealed ::
          certs[x].openings[id] == m.revealed[id])
  }

  lemma {:induction false} ScanUntroubled(lib: Library, epoch: nat, certs: Certificates, x: Id, order: seq<Id>,
                                          m: Marks)
    requires Clean(lib, epoch, certs) && x in certs && (forall id | id in order :: id in certs[x].commits)
             && Untroubled(certs, m)
    ensures Untroubled(certs, Scan(lib, epoch, x, certs[x], order, m))
  {
    if order != [] {
      ScanUntroubled(lib, epoch, certs, x, order[1..],
                     Record(m, order[0], certs[x].commits[order[0]], certs[x].openings[order[0]]));
    }
  }

  lemma {:induction false} AllUntroubled(lib: Library, epoch: nat, certs: Certificates, outer: seq<Id>,
                                         inner: map<Id, seq<Id>>, m: Marks)
    requires Clean(lib, epoch, certs) && Within(certs, outer, inner) && Untroubled(certs, m)
    ensures Untroubled(certs, ScanAll(lib, epoch, certs, outer, inner, m))
  {
    if outer != [] {
      ScanUntroubled(lib, epoch, certs, outer[0], inner[outer[0]], m);
      AllUntroubled(lib, epoch, certs, outer[1..], inner,
        Scan(lib, epoch, outer[0], certs[outer[0]], inner[outer[0]], m));
    }
  }

  /** Every listed author is accepted, with the entry that all certificates have for it, and nobody else is. */
  ghost predicate AcceptsAll(certs: Certificates, committed: map<Id, Bytes>, revealed: map<Id, Bytes>) {
    && committed.Keys == revealed.Keys
    && (forall id | id in committed :: exists x :: x in certs && id in certs[x].commits)
    && (forall x, id | x in certs && id in certs[x].commits ::
          id in committed && Has(certs[x], id, committed[id], revealed[id]))
  }

  ghost predicate Has(cert: Document, id: Id, commit: Bytes, opening: Bytes) {
    id in cert.commits && cert.commits[id] == commit && id in cert.openings && cert.openings[id] == opening
  }

  lemma CleanIsAccepted(lib: Library, epoch: nat, certs: Certificates, outer: seq<Id>, inner: map<Id, seq<Id>>)
    requires Clean(lib, epoch, certs) && Visits(certs, outer, inner)
    ensures var (committed, revealed) := Accepted(lib, epoch, certs, outer, inner); AcceptsAll(certs, committed,
            revealed)
  {
    FoundFacts(lib, epoch, certs, outer, inner);
    FoundUntroubled(lib, epoch, certs, outer, inner);
    hide AcceptsAll, Found, Visits, Clean, Consistent;
    var m := Found(lib, epoch, certs, outer, inner);
    UntroubledAcceptsAll(lib, epoch, certs, m);
    NothingRemoved(m.committed, m.bad);
    NothingRemoved(m.revealed, m.bad);
  }

  lemma FoundUntroubled(lib: Library, epoch: nat, certs: Certificates, outer: seq<Id>, inner: map<Id, seq<Id>>)
    requires Clean(lib, epoch, certs) && Visits(certs, outer, inner)
    ensures Found(lib, epoch, certs, outer, inner).bad == {}
  {
    hide Clean;
    VisitsWithin(certs, outer, inner);
    AllUntroubled(lib, epoch, certs, outer, inner, FRESH);
  }

  lemma UntroubledAcceptsAll(lib: Library, epoch: nat, certs: Certificates, m: Marks)
    requires Consistent(lib, epoch, certs, certs.Keys, m) && m.bad == {}
    ensures AcceptsAll(certs, m.committed, m.revealed)
  {
    var c, r := m.committed, m.revealed;
    assert c.Keys == r.Keys;
    hide Consistent, Has;
    forall x, id | x in certs && id in certs[x].commits ensures id in c && Has(certs[x], id, c[id], r[id]) {
      UntroubledEntry(lib, epoch, certs, m, x, id);
    }
    forall id | id in c ensures exists x :: x in certs && id in certs[x].commits {
      var x := RecordedFrom(lib, epoch, certs, m, id);
    }
  }

  lemma NothingRemoved(a: map<Id, Bytes>, b: set<Id>)
    requires b == {}
    ensures a - b == a
  {
  }

  lemma UntroubledEntry(lib: Library, epoch: nat, certs: Certificates, m: Marks, x: Id, id: Id)
    requires Consistent(lib, epoch, certs, certs.Keys, m) && m.bad == {} && x in certs && id in certs[x].commits
    ensures id in m.committed && id in m.revealed && Has(certs[x], id, m.committed[id], m.revealed[id])
  {
    hide Judge;
    assert x in certs.Keys && x !in m.bad && id !in m.bad;
    BacksLists(lib, epoch, certs[x], m, id);
  }

  lemma RecordedFrom(lib: Library, epoch: nat, certs: Certificates, m: Marks, id: Id) returns (x: Id)
    requires Consistent(lib, epoch, certs, certs.Keys, m) && id in m.committed
    ensures x in certs && id in certs[x].commits
  {
    x :| x in certs && Backs(lib, epoch, certs[x], m, id);
  }

  lemma CleanOrderIrrelevant(lib: Library, epoch: nat, certs: Certificates, outer: seq<Id>, inner: map<Id, seq<Id>>,
                             outer': seq<Id>, inner': map<Id, seq<Id>>)
    requires Clean(lib, epoch, certs) && Visits(certs, outer, inner) && Visits(certs, outer', inner')
    ensures Accepted(lib, epoch, certs, outer, inner) == Accepted(lib, epoch, certs, outer', inner')
  {
    CleanIsAccepted(lib, epoch, certs, outer, inner);
    CleanIsAccepted(lib, epoch, certs, outer', inner');
    hide Accepted, Visits, Clean, AcceptsAll;
    var (c, r) := Accepted(lib, epoch, certs, outer, inner);
    var (c', r') := Accepted(lib, epoch, certs, outer', inner');
    OneAnswer(certs, c, r, c', r');
  }

  lemma OneAnswer(certs: Certificates, c: map<Id, Bytes>, r: map<Id, Bytes>, c': map<Id, Bytes>, r': map<Id, Bytes>)
    requires AcceptsAll(certs, c, r) && AcceptsAll(certs, c', r')
    ensures c == c' && r == r'
  {
    AllIsOne(certs, c, r, c', r');
    AllIsOne(certs, c', r', c, r);
    hide AcceptsAll;
  }

  lemma AllIsOne(certs: Certificates, c: map<Id, Bytes>, r: map<Id, Bytes>, c': map<Id, Bytes>, r': map<Id, Bytes>)
    requires AcceptsAll(certs, c, r) && AcceptsAll(certs, c', r')
    ensures c.Keys <= c'.Keys && r.Keys == c.Keys && forall id | id in c :: c[id] == c'[id] && r[id] == r'[id]
  {
    forall id | id in c ensures id in c' && c[id] == c'[id] && r[id] == r'[id] {
      var x :| x in certs && id in certs[x].commits;
      assert Has(certs[x], id, c[id], r[id]) && Has(certs[x], id, c'[id], r'[id]);
    }
  }
}
