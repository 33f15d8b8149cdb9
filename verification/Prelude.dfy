/** Stock definitions shared by the model: options, byte strings, finite sets and the division facts
    behind layer sizes and epoch arithmetic. */
module Prelude {
  datatype Option<+T> = None | Some(value: T)

  newtype byte = x: int | 0 <= x < 256

  type Bytes = seq<byte>

  function Min(a: int, b: int): int {
    if a <= b then a else b
  }

  function Max(a: int, b: int): int {
    if a <= b then b else a
  }

  /** The big-endian encoding of `v` in `width` bytes, as `binary.BigEndian.PutUint64` writes it. */
  function ToBytes(v: nat, width: nat): (b: Bytes)
    ensures |b| == width
  {
    if width == 0 then [] else ToBytes(v / 256, width - 1) + [(v % 256) as byte]
  }

  /** The value that `b` encodes, as `binary.BigEndian.Uint64` reads it. */
  function FromBytes(b: Bytes): nat {
    if b == [] then 0 else FromBytes(b[..|b| - 1]) * 256 + b[|b| - 1] as nat
  }

  function Power256(width: nat): nat {
    if width == 0 then 1 else 256 * Power256(width - 1)
  }

  lemma {:induction false} BytesRoundTrip(v: nat, width: nat)
    requires v < Power256(width)
    ensures FromBytes(ToBytes(v, width)) == v
  {
    if width != 0 {
      BytesRoundTrip(v / 256, width - 1);
      var b := ToBytes(v, width);
      assert b[..|b| - 1] == ToBytes(v / 256, width - 1);
    }
  }

  // --- division

  lemma MulMonotone(d: nat, a: int, b: int)
    requires a <= b
    ensures d * a <= d * b
  {
    assert d * b == d * a + d * (b - a);
  }

  /** Quotient and remainder are determined by the division equation. */
  lemma DivUnique(n: nat, d: nat, q: nat, r: nat)
    requires d > 0 && n == d * q + r && r < d
    ensures n / d == q && n % d == r
  {
    var k := n / d - q;
    assert d * k == d * (n / d) - d * q == r - n % d;
    if k > 0 {
      MulMonotone(d, 1, k);
    } else if k < 0 {
      MulMonotone(d, k, -1);
    }
  }

  lemma SmallRemainder(n: nat, d: nat)
    requires n < d
    ensures n % d == n && n / d == 0
  {
    DivUnique(n, d, 0, n);
  }

  lemma RemainderLeft(n: nat, d: nat)
    requires d > 0
    ensures n - d * (n / d) == n % d
  {
  }

  lemma DivSucc(n: nat, d: nat)
    requires d > 0
    ensures if n % d == d - 1 then (n + 1) / d == n / d + 1 && (n + 1) % d == 0
            else (n + 1) / d == n / d && (n + 1) % d == n % d + 1
  {
    if n % d == d - 1 {
      DivUnique(n + 1, d, n / d + 1, 0);
    } else {
      DivUnique(n + 1, d, n / d, n % d + 1);
    }
  }

  /** Counting modulo `d` is the remainder of the count. */
  lemma NextRemainder(n: nat, d: nat)
    requires d > 0
    ensures (n % d + 1) % d == (n + 1) % d
  {
    DivSucc(n, d);
    if n % d == d - 1 {
      DivUnique(d, d, 1, 0);
    } else {
      DivUnique(n % d + 1, d, 0, n % d + 1);
    }
  }

  lemma DivMonotone(a: nat, b: nat, d: nat)
    requires d > 0 && a <= b
    ensures a / d <= b / d
  {
    if b / d + 1 <= a / d {
      MulMonotone(d, b / d + 1, a / d);
    }
  }

  // --- finite sets

  function Elements<T>(s: seq<T>): set<T> {
    set x | x in s
  }

  lemma {:induction false} FewerElements<T>(s: seq<T>)
    ensures |Elements(s)| <= |s|
  {
    if s == [] {
      assert Elements(s) == {};
    } else {
      FewerElements(s[1..]);
      assert s == [s[0]] + s[1..];
      assert Elements(s) == {s[0]} + Elements(s[1..]);
    }
  }

  /** The positions of a list of length `n`. */
  function Below(n: nat): (s: set<nat>)
    ensures |s| == n && forall i :: i in s <==> 0 <= i < n
  {
    if n == 0 then {} else Below(n - 1) + {n - 1}
  }

  lemma SubsetCardinality<T>(a: set<T>, b: set<T>)
    requires a <= b
    ensures |a| <= |b|
    ensures |a| == |b| ==> a == b
    ensures |b - a| == |b| - |a|
  {
    assert b == a + (b - a);
  }
}
