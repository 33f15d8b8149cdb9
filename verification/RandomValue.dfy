/** The shared random value: what is hashed for it, and that all authorities hash the same. */
module RandomValue {
  import opened Prelude
  import opened Pki
  import opened SharedRandom

  datatype Reveal = Reveal(key: Id, digest: Bytes)

  /** The order of Go strings. */
  predicate Less(a: Bytes, b: Bytes) {
    b != [] && (a == [] || a[0] < b[0] || (a[0] == b[0] && Less(a[1..], b[1..])))
  }

  /** The first difference decides, and a proper prefix comes first. */
  lemma {:induction false} LessMeans(a: Bytes, b: Bytes)
    ensures Less(a, b) <==> exists k :: 0 <= k <= |a| && k < |b| && a[..k] == b[..k] && (k == |a| || a[k] < b[k])
  {
    if a == [] {
      assert b != [] ==> a[..0] == b[..0];
    } else if b != [] && a[0] == b[0] {
      LessMeans(a[1..], b[1..]);
      if k :| 0 <= k <= |a| && k < |b| && a[..k] == b[..k] && (k == |a| || a[k] < b[k]) {
        assert k > 0 && a[1..][..k - 1] == a[..k][1..] && b[1..][..k - 1] == b[..k][1..];
      }
      if k :| 0 <= k <= |a[1..]| && k < |b[1..]| && a[1..][..k] == b[1..][..k]
              && (k == |a[1..]| || a[1..][k] < b[1..][k]) {
        assert a[..k + 1] == [a[0]] + a[1..][..k] && b[..k + 1] == [b[0]] + b[1..][..k];
      }
    } else if b != [] {
      assert a[..0] == b[..0];
      forall k | 0 < k <= |a| && k < |b| ensures a[..k] != b[..k] {
        assert a[..k][0] == a[0] && b[..k][0] == b[0];
      }
    }
  }

  lemma {:induction false} LessTotal(a: Bytes, b: Bytes)
    ensures a == b || Less(a, b) || Less(b, a)
    ensures !(Less(a, b) && (a == b || Less(b, a)))
  {
    if a != [] && b != [] {
      assert a == [a[0]] + a[1..] && b == [b[0]] + b[1..];
      LessTotal(a[1..], b[1..]);
    }
  }

  lemma {:induction false} LessTransitive(a: Bytes, b: Bytes, c: Bytes)
    requires Less(a, b) && Less(b, c)
    ensures Less(a, c)
  {
    if a != [] && a[0] == b[0] == c[0] {
      LessTransitive(a[1..], b[1..], c[1..]);
    }
  }

  ghost predicate Descending(s: seq<Reveal>) {
    s == [] || ((forall r | r in s[1..] :: !Less(s[0].digest, r.digest)) && Descending(s[1..]))
  }

  /** Go's sort, as far as it is specified. */
  function Insert(s: seq<Reveal>, d: Reveal): (t: seq<Reveal>)
    requires Descending(s)
    ensures Descending(t) && multiset(t) == multiset(s) + multiset{d}
  {
    if s == [] then [d]
    else
      assert s == [s[0]] + s[1..];
      if Less(s[0].digest, d.digest) then
        InsertBefore(s, d);
        [d] + s
      else
        var rest := Insert(s[1..], d);
        assert forall r | r in rest :: r in multiset(rest);
        [s[0]] + rest
  }

  lemma InsertBefore(s: seq<Reveal>, d: Reveal)
    requires Descending(s) && s != [] && Less(s[0].digest, d.digest)
    ensures Descending([d] + s)
  {
    assert s == [s[0]] + s[1..];
    LessTotal(s[0].digest, d.digest);
    forall r | r in s ensures !Less(d.digest, r.digest) {
      if Less(d.digest, r.digest) {
        LessTransitive(s[0].digest, d.digest, r.digest);
      }
    }
    assert ([d] + s)[1..] == s;
  }

  /** With distinct digests there is one descending order. */
  lemma {:induction false} DescendingIsUnique(s: seq<Reveal>, t: seq<Reveal>)
    requires Descending(s) && Descending(t) && multiset(s) == multiset(t)
    requires forall r, q | r in s && q in s && r.digest == q.digest :: r == q
    ensures s == t
  {
    assert |t| == |multiset(t)| == |multiset(s)| == |s|;
    if s != [] {
      SameTop(s, t);
      Rest(s);
      Rest(t);
      DescendingIsUnique(s[1..], t[1..]);
    }
  }

  lemma Rest(s: seq<Reveal>)
    requires s != []
    ensures s == [s[0]] + s[1..] && multiset(s[1..]) == multiset(s) - multiset{s[0]}
  {
  }

  lemma SameTop(s: seq<Reveal>, t: seq<Reveal>)
    requires Descending(s) && Descending(t) && multiset(s) == multiset(t) && s != [] && t != []
    requires forall r, q | r in s && q in s && r.digest == q.digest :: r == q
    ensures s[0] == t[0]
  {
    Rest(s);
    Rest(t);
    assert s[0] in multiset(t) && t[0] in multiset(s);
    LessTotal(s[0].digest, t[0].digest);
  }

  /** The bytes of "shared-random". */
  const LABEL: Bytes := [0x73, 0x68, 0x61, 0x72, 0x65, 0x64, 0x2d, 0x72, 0x61, 0x6e, 0x64, 0x6f, 0x6d]

  function Written(list: seq<Reveal>): Bytes {
    if list == [] then [] else
      var last := list[|list| - 1];
      Written(list[..|list| - 1]) + ToBytes(last.key, 32) + last.digest
  }

  function Content(lib: Library, openings: map<Id, Bytes>): set<Reveal>
    requires forall id | id in openings :: lib.certified(openings[id]).Some?
  {
    set id | id in openings :: Reveal(id, lib.certified(openings[id]).value)
  }

  /** The bytes whose hash is the shared random value: label, epoch, the reveals in descending order of their digests,
      and the previous value. */
  ghost predicate IsStream(lib: Library, epoch: nat, openings: map<Id, Bytes>, previous: Bytes, stream: Bytes) {
    && (forall id | id in openings :: lib.certified(openings[id]).Some?)
    && exists list: seq<Reveal> :: Descending(list) && multiset(list) == multiset(Content(lib, openings))
         && stream == LABEL + ToBytes(epoch, 8) + Written(list) + previous
  }

  method ComputeSharedRandom(lib: Library, threshold: nat, epoch: nat, commits: map<Id, Bytes>,
                             openings: map<Id, Bytes>,
                             cached: Option<Document>) returns (stream: Option<Bytes>)
    ensures stream.None? <==> |commits| < threshold || exists id :: id in openings && lib.certified(openings[id]).None?
    ensures var previous := match cached case Some(d) => d.srv case None => seq(32, _ => 0 as byte);
            stream.Some? ==> IsStream(lib, epoch, openings, previous, stream.value)
  {
    if |commits| < threshold { return None; }
    var sortedReveals := SortReveals(lib, openings);
    if sortedReveals.None? { return None; }
    var written := WriteReveals(sortedReveals.value);
    var bytes := LABEL + ToBytes(epoch, 8) + written;
    if cached.Some? {
      bytes := bytes + cached.value.srv;
    } else {
      bytes := bytes + seq(32, _ => 0 as byte);
    }
    return Some(bytes);
  }

  method WriteReveals(list: seq<Reveal>) returns (bytes: Bytes)
    ensures bytes == Written(list)
  {
    bytes := [];
    for i := 0 to |list|
      invariant bytes == Written(list[..i])
    {
      assert list[..i + 1][..i] == list[..i];
      bytes := bytes + ToBytes(list[i].key, 32);
      bytes := bytes + list[i].digest;
    }
    assert list[..|list|] == list;
  }

  /** The reveals with their digests, in whatever order the map is visited, sorted. */
  method SortReveals(lib: Library, openings: map<Id, Bytes>) returns (sorted: Option<seq<Reveal>>)
    ensures sorted.None? <==> exists id :: id in openings && lib.certified(openings[id]).None?
    ensures sorted.Some? ==> Descending(sorted.value) && multiset(sorted.value) == multiset(Content(lib, openings))
  {
    var list: seq<Reveal>, todo := [], openings.Keys;
    ghost var seen: map<Id, Bytes> := map[];
    assert Content(lib, seen) == {};
    hide Content, Descending;
    while todo != {}
      invariant seen.Keys == openings.Keys - todo && todo <= openings.Keys
      invariant forall id | id in seen :: seen[id] == openings[id] && lib.certified(seen[id]).Some?
      invariant Descending(list) && multiset(list) == multiset(Content(lib, seen))
      decreases todo
    {
      var id :| id in todo;
      var digest := lib.certified(openings[id]);
      if digest.None? { return None; }
      ContentMore(lib, seen, id, openings[id]);
      list := Insert(list, Reveal(id, digest.value));
      todo := todo - {id};
      seen := seen[id := openings[id]];
    }
    assert seen == openings;
    return Some(list);
  }

  lemma ContentMore(lib: Library, m: map<Id, Bytes>, id: Id, blob: Bytes)
    requires (forall i | i in m :: lib.certified(m[i]).Some?) && id !in m && lib.certified(blob).Some?
    ensures multiset(Content(lib, m[id := blob]))
            == multiset(Content(lib, m)) + multiset{Reveal(id, lib.certified(blob).value)}
  {
    var added := Reveal(id, lib.certified(blob).value);
    assert added !in Content(lib, m);
    var m' := m[id := blob];
    forall r ensures r in Content(lib, m') <==> r in Content(lib, m) || r == added {
      assert r in Content(lib, m) <==> r.key in m && r == Reveal(r.key, lib.certified(m[r.key]).value);
      assert r in Content(lib, m') <==> r.key in m' && r == Reveal(r.key, lib.certified(m'[r.key]).value);
    }
    assert Content(lib, m') == Content(lib, m) + {added};
  }

  ghost predicate DistinctDigests(lib: Library, openings: map<Id, Bytes>) {
    forall i, j | i in openings && j in openings && i != j ::
      lib.certified(openings[i]) != lib.certified(openings[j])
  }

  lemma StreamIsUnique(lib: Library, epoch: nat, openings: map<Id, Bytes>, previous: Bytes, a: Bytes, b: Bytes)
    requires IsStream(lib, epoch, openings, previous, a) && IsStream(lib, epoch, openings, previous, b)
    requires DistinctDigests(lib, openings)
    ensures a == b
  {
    var s: seq<Reveal> :| Descending(s) && multiset(s) == multiset(Content(lib, openings))
                          && a == LABEL + ToBytes(epoch, 8) + Written(s) + previous;
    var t: seq<Reveal> :| Descending(t) && multiset(t) == multiset(Content(lib, openings))
                          && b == LABEL + ToBytes(epoch, 8) + Written(t) + previous;
    forall r, q | r in s && q in s && r.digest == q.digest ensures r == q {
      assert r in multiset(s) && q in multiset(s);
    }
    DescendingIsUnique(s, t);
  }

  /** When all certificates are clean the shared random value does not depend on any order in which maps are visited or
      equal elements sorted, given that the reveals' digests are distinct. */
  lemma CleanCertificatesGiveOneRandom(lib: Library, epoch: nat, certs: Certificates, outer: seq<Id>,
                                       inner: map<Id, seq<Id>>,
                                       outer': seq<Id>, inner': map<Id, seq<Id>>, previous: Bytes, a: Bytes, b: Bytes)
    requires Clean(lib, epoch, certs) && Visits(certs, outer, inner) && Visits(certs, outer', inner')
    requires var openings := Accepted(lib, epoch, certs, outer, inner).1;
             && IsStream(lib, epoch, openings, previous, a)
             && DistinctDigests(lib, openings)
    requires IsStream(lib, epoch, Accepted(lib, epoch, certs, outer', inner').1, previous, b)
    ensures a == b
  {
    CleanOrderIrrelevant(lib, epoch, certs, outer, inner, outer', inner');
    StreamIsUnique(lib, epoch, Accepted(lib, epoch, certs, outer, inner).1, previous, a, b);
  }
}
