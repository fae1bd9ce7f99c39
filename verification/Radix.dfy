/** Big-endian digit sequences and the numbers they stand for. */
module Radix {

  function Pow(base: nat, k: nat): (r: nat)
    ensures base > 0 ==> r > 0
  {
    if k == 0 then 1 else base * Pow(base, k - 1)
  }

  ghost predicate Below(digits: seq<nat>, base: nat) {
    forall i :: 0 <= i < |digits| ==> digits[i] < base
  }

  function Value(base: nat, digits: seq<nat>): nat {
    if digits == [] then 0 else Value(base, digits[..|digits| - 1]) * base + digits[|digits| - 1]
  }

  /** The lowest `len` digits of `v`. */
  function Digits(base: nat, len: nat, v: nat): seq<nat>
    requires base > 0
    ensures |Digits(base, len, v)| == len
  {
    if len == 0 then [] else Digits(base, len - 1, v / base) + [v % base]
  }

  lemma ValueAppend(base: nat, digits: seq<nat>, d: nat)
    ensures Value(base, digits + [d]) == Value(base, digits) * base + d
  {
    assert (digits + [d])[..|digits|] == digits;
  }

  lemma ValueOfNothing(base: nat)
    ensures Value(base, []) == 0
  {
  }

  // ---------------------------------------------------------------------------
  // Arithmetic
  // ---------------------------------------------------------------------------

  lemma MulMonotone(a: int, b: int, c: nat)
    requires a <= b
    ensures a * c <= b * c
  {
  }

  /** Quotient and remainder are unique. */
  lemma DivStep(m: nat, q: int, r: nat)
    requires r < m
    ensures (q * m + r) / m == q && (q * m + r) % m == r
  {
    var n := q * m + r;
    var d := n / m;
    assert n == d * m + n % m;
    if d <= q - 1 {
      MulMonotone(d + 1, q, m);
    }
    if q <= d - 1 {
      MulMonotone(q + 1, d, m);
    }
  }

  lemma MulLess(a: nat, b: nat, c: nat)
    requires a < b && c > 0
    ensures a * c < b * c
  {
    MulMonotone(a + 1, b, c);
  }

  lemma {:induction false} PowProduct(base: nat, a: nat, b: nat)
    ensures Pow(base, a + b) == Pow(base, a) * Pow(base, b)
  {
    if a > 0 {
      PowProduct(base, a - 1, b);
      MulAssociates(base, Pow(base, a - 1), Pow(base, b));
    }
  }

  lemma MulAssociates(a: int, b: int, c: int)
    ensures a * (b * c) == (a * b) * c
  {
  }

  lemma {:induction false} PowOfPow(base: nat, w: nat, k: nat)
    ensures Pow(Pow(base, w), k) == Pow(base, w * k)
  {
    if k > 0 {
      PowOfPow(base, w, k - 1);
      PowProduct(base, w, w * (k - 1));
      assert w + w * (k - 1) == w * k;
    }
  }

  // ---------------------------------------------------------------------------
  // Digits and values
  // ---------------------------------------------------------------------------

  lemma {:induction false} DigitsBelow(base: nat, len: nat, v: nat)
    requires base > 0
    ensures Below(Digits(base, len, v), base)
  {
    if len > 0 {
      DigitsBelow(base, len - 1, v / base);
    }
  }

  /** A digit sequence is the only one of its length with its value. */
  lemma {:induction false} DigitsOfValue(base: nat, digits: seq<nat>)
    requires base > 0 && Below(digits, base)
    ensures Digits(base, |digits|, Value(base, digits)) == digits
  {
    if digits != [] {
      var init, last := digits[..|digits| - 1], digits[|digits| - 1];
      DigitsOfValue(base, init);
      DivStep(base, Value(base, init), last);
      assert digits == init + [last];
    }
  }

  /** Reading the lowest digits back gives the number, if it was small enough for them. */
  lemma {:induction false} ValueOfDigits(base: nat, len: nat, v: nat)
    requires base > 0 && v < Pow(base, len)
    ensures Value(base, Digits(base, len, v)) == v
  {
    hide Pow;
    if len == 0 {
      PowOfNothing(base);
    } else {
      QuotientFits(base, len, v);
      ValueOfDigits(base, len - 1, v / base);
      assert Digits(base, len, v)[..len - 1] == Digits(base, len - 1, v / base);
    }
  }

  lemma PowOfNothing(base: nat)
    ensures Pow(base, 0) == 1
  {
  }

  lemma QuotientFits(base: nat, len: nat, v: nat)
    requires base > 0 && len > 0 && v < Pow(base, len)
    ensures v / base < Pow(base, len - 1)
  {
    var n, p := v / base, Pow(base, len - 1);
    assert v == n * base + v % base;
    if p <= n {
      MulMonotone(p, n, base);
    }
  }

  lemma {:induction false} ValueBelow(base: nat, digits: seq<nat>)
    requires base > 0 && Below(digits, base)
    ensures Value(base, digits) < Pow(base, |digits|)
  {
    if digits != [] {
      var init := digits[..|digits| - 1];
      ValueBelow(base, init);
      ShiftInFits(base, Value(base, init), Pow(base, |init|), digits[|init|]);
    }
  }

  lemma ShiftInFits(base: nat, v: nat, p: nat, d: nat)
    requires v < p && d < base
    ensures v * base + d < base * p
  {
    MulMonotone(v + 1, p, base);
  }
}
