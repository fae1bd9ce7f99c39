/** Bytes and little-endian numbers. */
module Bytes {
  import opened Options
  import opened Radix

  type Byte = x: nat | x < 256

  /** The `n` low bytes of `v`, lowest first. */
  function LeBytes(v: nat, n: nat): (r: seq<Byte>)
    ensures |r| == n
  {
    if n == 0 then [] else [v % 256] + LeBytes(v / 256, n - 1)
  }

  function LeValue(b: seq<Byte>): nat {
    if b == [] then 0 else b[0] + 256 * LeValue(b[1..])
  }

  lemma SplitByte(v: nat, c: nat)
    requires c > 0
    ensures v % (256 * c) == 256 * ((v / 256) % c) + v % 256
  {
    var w := v / 256;
    var q, r := w / c, w % c;
    assert w == q * c + r;
    assert v == 256 * w + v % 256;
    MulAssociates(256, c, q);
    DivStep(256 * c, q, 256 * r + v % 256);
  }

  lemma FourBytes()
    ensures Pow(256, 4) == 0x1_0000_0000
  {
    PowProduct(256, 2, 2);
    assert Pow(256, 2) == 256 * (256 * Pow(256, 0));
  }

  /** Reading back what was written, with whatever did not fit cut off. */
  lemma {:induction false} LeRoundTrip(v: nat, n: nat)
    ensures LeValue(LeBytes(v, n)) == v % Pow(256, n)
  {
    if n > 0 {
      LeRoundTrip(v / 256, n - 1);
      assert LeBytes(v, n)[1..] == LeBytes(v / 256, n - 1);
      SplitByte(v, Pow(256, n - 1));
    }
  }

  /** The bytes one by one: the lowest comes first. */
  lemma {:induction false} LeByteAt(v: nat, n: nat, i: nat)
    requires i < n
    ensures Pow(256, i) > 0 && LeBytes(v, n)[i] == v / Pow(256, i) % 256
  {
    if i > 0 {
      LeByteAt(v / 256, n - 1, i - 1);
      DivTwice(v, 256, Pow(256, i - 1));
    }
  }

  lemma DivTwice(v: nat, a: nat, b: nat)
    requires a > 0 && b > 0 && a * b > 0
    ensures v / a / b == v / (a * b)
  {
    var q, r := v / a, v % a;
    var u, w := q / b, q % b;
    assert v == q * a + r && q == u * b + w;
    assert v == u * (a * b) + (w * a + r) by {
      assert (u * b + w) * a == u * b * a + w * a;
      MulAssociates(u, b, a);
      assert a * b == b * a;
    }
    MulMonotone(w + 1, b, a);
    assert (w + 1) * a == w * a + a && b * a == a * b;
    DivStep(a * b, u, w * a + r);
  }

  lemma {:induction false} LeValueBelow(b: seq<Byte>)
    ensures LeValue(b) < Pow(256, |b|)
  {
    if b != [] {
      LeValueBelow(b[1..]);
    }
  }

  /** Writing back what was read. */
  lemma {:induction false} LeBytesOfValue(b: seq<Byte>)
    ensures LeBytes(LeValue(b), |b|) == b
  {
    if b != [] {
      LeBytesOfValue(b[1..]);
      DivStep(256, LeValue(b[1..]), b[0]);
      assert b == [b[0]] + b[1..];
    }
  }

  /** Appending the next part of the right-nested whole. */
  lemma Assoc(done: seq<Byte>, part: seq<Byte>, rest: seq<Byte>)
    ensures (done + part) + rest == done + (part + rest)
  {
  }

  // ---------------------------------------------------------------------------
  // Bytes that may be missing
  // ---------------------------------------------------------------------------

  function Join(a: Option<seq<Byte>>, b: Option<seq<Byte>>): Option<seq<Byte>> {
    if a.Some? && b.Some? then Some(a.value + b.value) else None
  }

  lemma JoinNothing(s: Option<seq<Byte>>)
    ensures Join(Some([]), s) == s
  {
    if s.Some? {
      assert [] + s.value == s.value;
    }
  }

  lemma JoinAssociates(done: seq<Byte>, first: Option<seq<Byte>>, others: Option<seq<Byte>>)
    ensures Join(Some(done), Join(first, others)) == if first.None? then None
            else Join(Some(done + first.value), others)
  {
    if first.Some? && others.Some? {
      assert done + (first.value + others.value) == done + first.value + others.value;
    }
  }
}
