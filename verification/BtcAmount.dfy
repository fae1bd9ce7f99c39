/** Decimal BTC amounts to satoshis and yocto amounts to satoshis, without floating point. */
module BtcAmount {
  import opened Options
  import opened Radix
  import opened Decimal

  const SATOSHIS_PER_BTC: nat := 100_000_000
  const YOCTO_PER_SATOSHI: nat := 10_000_000_000_000_000

  /** Unicode white space, which `trim` removes at both ends. */
  predicate IsSpace(c: char) {
    var n := c as int;
    || 0x09 <= n <= 0x0D || n == 0x20 || n == 0x85 || n == 0xA0 || n == 0x1680 || 0x2000 <= n <= 0x200A
    || n == 0x2028 || n == 0x2029 || n == 0x202F || n == 0x205F || n == 0x3000
  }

  /** The code points with the White_Space property. */
  lemma Spaces(c: char)
    ensures IsSpace(c) <==>
              c as int in {9, 10, 11, 12, 13, 32, 133, 160, 5760, 8192, 8193, 8194, 8195, 8196, 8197, 8198, 8199, 8200,
                           8201, 8202, 8232, 8233, 8239, 8287, 12288}
  {
  }

  function TrimStart(s: string): string {
    if s != [] && IsSpace(s[0]) then TrimStart(s[1..]) else s
  }

  function TrimEnd(s: string): string {
    if s != [] && IsSpace(s[|s| - 1]) then TrimEnd(s[..|s| - 1]) else s
  }

  function Trim(s: string): string {
    TrimEnd(TrimStart(s))
  }

  function FirstDot(s: string): (i: nat)
    ensures i <= |s| && '.' !in s[..i] && (i < |s| ==> s[i] == '.')
  {
    if s == [] || s[0] == '.' then 0
    else
      var j := FirstDot(s[1..]);
      assert s[..j + 1] == [s[0]] + s[1..][..j];
      1 + j
  }

  function Whole(v: string): string {
    v[..FirstDot(v)]
  }

  function Fraction(v: string): string {
    if FirstDot(v) < |v| then v[FirstDot(v) + 1..] else ""
  }

  function Zeros(k: nat): (s: string)
    ensures |s| == k
  {
    seq(k, _ => '0')
  }

  /** The part behind the optional plus sign, once the sign and the notation are acceptable. */
  function ParseDecimal(v: string): Option<nat> {
    if "-" <= v || 'e' in v || 'E' in v then None
    else
      var whole, frac := Whole(v), Fraction(v);
      // a second dot would be part of the fraction here and is no digit
      var wholeDigits := if whole == "" then "0" else whole;
      if !AllDigits(wholeDigits) || !AllDigits(frac) || |frac| > 8 then None
      else
        var w := ParseU128(wholeDigits);
        var f := ParseU128(frac + Zeros(8 - |frac|));
        if w.None? || f.None? || w.value * SATOSHIS_PER_BTC + f.value >= U128 then None
        else Some(w.value * SATOSHIS_PER_BTC + f.value)
  }

  function ParseBtc(raw: string): Option<nat> {
    var v := Trim(raw);
    if v == "" then None else ParseDecimal(if "+" <= v then v[1..] else v)
  }

  function YoctoToSatoshis(yocto: nat): Option<nat> {
    if yocto % YOCTO_PER_SATOSHI != 0 then None else Some(yocto / YOCTO_PER_SATOSHI)
  }

  // ---------------------------------------------------------------------------
  // Exactness
  // ---------------------------------------------------------------------------

  lemma ZerosAddNothing(k: nat)
    ensures Number(Zeros(k)) == 0 && AllDigits(Zeros(k))
    decreases k
  {
    if k > 0 {
      ZerosAddNothing(k - 1);
      assert Zeros(k)[..k - 1] == Zeros(k - 1);
    }
  }

  lemma EightDigits()
    ensures Pow(10, 8) == SATOSHIS_PER_BTC
  {
    PowProduct(10, 4, 4);
    assert Pow(10, 4) == 10 * (10 * (10 * (10 * Pow(10, 0))));
  }

  lemma NoPlus(s: string)
    requires AllDigits(s)
    ensures ParseU128(s) == if s == [] || Number(s) >= U128 then None else Some(Number(s))
  {
    if s != [] {
      assert IsDigit(s[0]);
    }
  }

  lemma DigitsConcat(a: string, b: string)
    requires AllDigits(a) && AllDigits(b)
    ensures AllDigits(a + b)
  {
  }

  lemma PaddedFraction(f: string)
    requires AllDigits(f) && |f| <= 8
    ensures ParseU128(f + Zeros(8 - |f|)) == Some(Number(f) * Pow(10, 8 - |f|))
  {
    hide Pow, Number, ParseU128, Zeros, AllDigits;
    var padded := f + Zeros(8 - |f|);
    ZerosAddNothing(8 - |f|);
    DigitsConcat(f, Zeros(8 - |f|));
    NumberConcat(f, Zeros(8 - |f|));
    NumberBelow(padded);
    EightDigits();
    NoPlus(padded);
  }

  /** The digits of the amount in the unit of its last decimal place. */
  function Scaled(v: string): nat {
    Number(Whole(v) + Fraction(v))
  }

  ghost predicate IsAmount(v: string) {
    AllDigits(Whole(v)) && AllDigits(Fraction(v)) && |Fraction(v)| <= 8
  }

  /**
   * A string behind the sign is accepted exactly when it is digits with at most one dot, at most
   * eight of them behind it, and its value in satoshis fits a u128; the result is then exactly the
   * decimal value times 10^8.
   */
  lemma DecimalExact(v: string)
    ensures ParseDecimal(v).Some? <==> IsAmount(v) && Scaled(v) * Pow(10, 8 - |Fraction(v)|) < U128
    ensures ParseDecimal(v).Some? ==> ParseDecimal(v).value * Pow(10, |Fraction(v)|) == Scaled(v) * SATOSHIS_PER_BTC
  {
    hide Pow, Number, ParseU128, Zeros, AllDigits, Whole, Fraction;
    var w, f := Whole(v), Fraction(v);
    DefaultWhole(w);
    if IsAmount(v) {
      NoSignOrExponent(v);
      ScaledSum(w, f);
      PaddedFraction(f);
      NoPlus(if w == "" then "0" else w);
    }
  }

  /** An absent whole part counts as zero. */
  lemma DefaultWhole(w: string)
    ensures AllDigits(w) <==> AllDigits(if w == "" then "0" else w)
    ensures Number(if w == "" then "0" else w) == Number(w)
  {
    assert "0"[..0] == [];
  }

  lemma ScaledSum(w: string, f: string)
    requires |f| <= 8
    ensures Number(w + f) * Pow(10, 8 - |f|) == Number(w) * SATOSHIS_PER_BTC + Number(f) * Pow(10, 8 - |f|)
    ensures (Number(w) * SATOSHIS_PER_BTC + Number(f) * Pow(10, 8 - |f|)) * Pow(10, |f|)
            == Number(w + f) * SATOSHIS_PER_BTC
  {
    hide Pow, Number;
    var p, q := Pow(10, |f|), Pow(10, 8 - |f|);
    EightDigits();
    NumberConcat(w, f);
    PowProduct(10, |f|, 8 - |f|);
    PowProduct(10, 8 - |f|, |f|);
    MulAssociates(Number(w), p, q);
    Distribute(Number(w) * p, Number(f), q);
    MulAssociates(Number(w + f), q, p);
  }

  lemma Distribute(a: int, b: int, c: int)
    ensures (a + b) * c == a * c + b * c
  {
  }

  lemma NoSignOrExponent(v: string)
    requires IsAmount(v)
    ensures !("-" <= v) && 'e' !in v && 'E' !in v
  {
    var i := FirstDot(v);
    forall j | 0 <= j < |v| ensures IsDigit(v[j]) || v[j] == '.' {
      if j < i {
        assert v[j] == Whole(v)[j];
      } else if j > i {
        assert v[j] == Fraction(v)[j - i - 1];
      }
    }
  }

  // ---------------------------------------------------------------------------
  // Round trips
  // ---------------------------------------------------------------------------

  function Padded(n: nat): string
    requires n < SATOSHIS_PER_BTC
  {
    ToDigits(n, 8)
  }

  /** Exactly `k` digits. */
  function ToDigits(n: nat, k: nat): (s: string)
    ensures |s| == k && AllDigits(s)
  {
    if k == 0 then [] else ToDigits(n / 10, k - 1) + [DigitChar(n % 10)]
  }

  lemma {:induction false} NumberOfDigits(n: nat, k: nat)
    requires n < Pow(10, k)
    ensures Number(ToDigits(n, k)) == n
  {
    hide Pow;
    if k == 0 {
      PowOfNothing(10);
    } else {
      QuotientFits(10, k, n);
      NumberOfDigits(n / 10, k - 1);
      assert ToDigits(n, k)[..k - 1] == ToDigits(n / 10, k - 1);
    }
  }

  /** The usual rendering of a satoshi count in BTC. */
  function Render(sats: nat): string {
    ToString(sats / SATOSHIS_PER_BTC) + "." + Padded(sats % SATOSHIS_PER_BTC)
  }

  lemma SplitAtDot(w: string, f: string)
    requires AllDigits(w)
    ensures Whole(w + "." + f) == w && Fraction(w + "." + f) == f
  {
    var v := w + "." + f;
    assert v[|w|] == '.';
    var i := FirstDot(v);
    assert i == |w|;
  }

  lemma NothingToTrim(s: string)
    requires s != [] && !IsSpace(s[0]) && !IsSpace(s[|s| - 1])
    ensures Trim(s) == s
  {
  }

  lemma DigitEnds(w: string, f: string)
    requires w != [] && f != [] && AllDigits(w) && AllDigits(f)
    ensures var v := w + "." + f; v != [] && IsDigit(v[0]) && IsDigit(v[|v| - 1])
  {
    var v := w + "." + f;
    assert v[0] == w[0] && v[|v| - 1] == f[|f| - 1];
  }

  lemma ParseWritten(w: string, f: string)
    requires w != [] && f != [] && AllDigits(w) && AllDigits(f) && |f| <= 8
    ensures var sats := Number(w) * SATOSHIS_PER_BTC + Number(f) * Pow(10, 8 - |f|);
            ParseBtc(w + "." + f) == if sats < U128 then Some(sats) else None
  {
    hide Pow, Number, ParseDecimal, Trim, AllDigits, Whole, Fraction;
    var v := w + "." + f;
    DigitEnds(w, f);
    NothingToTrim(v);
    SplitAtDot(w, f);
    DecimalExact(v);
    ScaledSum(w, f);
    if ParseDecimal(v).Some? {
      CancelFactor(ParseDecimal(v).value, Number(w) * SATOSHIS_PER_BTC + Number(f) * Pow(10, 8 - |f|), Pow(10, |f|));
    }
  }

  lemma CancelFactor(a: nat, b: nat, c: nat)
    requires c > 0 && a * c == b * c
    ensures a == b
  {
  }

  /** Every satoshi count that fits is parsed back from its rendering. */
  lemma RenderRoundTrip(sats: nat)
    requires sats < U128
    ensures ParseBtc(Render(sats)) == Some(sats)
  {
    hide Pow, Number, ParseBtc, ToString, Padded;
    var w, f := ToString(sats / SATOSHIS_PER_BTC), Padded(sats % SATOSHIS_PER_BTC);
    NumberOfString(sats / SATOSHIS_PER_BTC);
    EightDigits();
    PaddedIs(sats % SATOSHIS_PER_BTC);
    ParseWritten(w, f);
  }

  lemma PaddedIs(n: nat)
    requires n < SATOSHIS_PER_BTC
    ensures |Padded(n)| == 8 && AllDigits(Padded(n)) && Number(Padded(n)) == n && Pow(10, 0) == 1
  {
    EightDigits();
    NumberOfDigits(n, 8);
  }

  // ---------------------------------------------------------------------------
  // Trailing zeros
  // ---------------------------------------------------------------------------

  lemma FirstDotIs(s: string, i: nat)
    requires i < |s| && s[i] == '.' && '.' !in s[..i]
    ensures FirstDot(s) == i
  {
    var j := FirstDot(s);
    assert !(j < i) && !(i < j);
  }

  lemma ZerosAtEnd(v: string, k: nat)
    requires '.' in v
    ensures Whole(v + Zeros(k)) == Whole(v) && Fraction(v + Zeros(k)) == Fraction(v) + Zeros(k)
  {
    var i := FirstDot(v);
    assert i < |v|;
    assert (v + Zeros(k))[..i] == v[..i];
    FirstDotIs(v + Zeros(k), i);
  }

  lemma PaddedDigits(f: string, k: nat)
    ensures AllDigits(f + Zeros(k)) <==> AllDigits(f)
  {
    assert f == (f + Zeros(k))[..|f|];
  }

  lemma ScaledZeros(w: string, f: string, k: nat)
    requires |f| + k <= 8
    ensures Number(w + (f + Zeros(k))) * Pow(10, 8 - |f| - k) == Number(w + f) * Pow(10, 8 - |f|)
  {
    hide Pow, Number, Zeros;
    ZerosAddNothing(k);
    assert w + (f + Zeros(k)) == (w + f) + Zeros(k);
    NumberConcat(w + f, Zeros(k));
    PowProduct(10, k, 8 - |f| - k);
    MulAssociates(Number(w + f), Pow(10, k), Pow(10, 8 - |f| - k));
  }

  /** The satoshis of an accepted string, as one product. */
  lemma DecimalValue(v: string)
    requires ParseDecimal(v).Some?
    ensures |Fraction(v)| <= 8 && ParseDecimal(v).value == Scaled(v) * Pow(10, 8 - |Fraction(v)|)
  {
    hide Pow, Number, ParseDecimal, AllDigits, Whole, Fraction;
    DecimalExact(v);
    ScaledSum(Whole(v), Fraction(v));
    CancelFactor(ParseDecimal(v).value, Scaled(v) * Pow(10, 8 - |Fraction(v)|), Pow(10, |Fraction(v)|));
  }

  lemma DecimalZeros(v: string, k: nat)
    requires '.' in v && |Fraction(v)| + k <= 8
    ensures ParseDecimal(v + Zeros(k)) == ParseDecimal(v)
  {
    hide Pow, Number, ParseDecimal, AllDigits, Whole, Fraction, Zeros;
    var v' := v + Zeros(k);
    ZerosAtEnd(v, k);
    PaddedDigits(Fraction(v), k);
    ScaledZeros(Whole(v), Fraction(v), k);
    DecimalExact(v);
    DecimalExact(v');
    if ParseDecimal(v).Some? {
      DecimalValue(v);
      DecimalValue(v');
    }
  }

  lemma {:induction false} TrimStartZeros(s: string, k: nat)
    requires '.' in s
    ensures TrimStart(s + Zeros(k)) == TrimStart(s) + Zeros(k)
    ensures '.' in TrimStart(s) && Fraction(TrimStart(s)) == Fraction(s)
            && TrimStart(s)[|TrimStart(s)| - 1] == s[|s| - 1]
  {
    hide Zeros, Fraction;
    if IsSpace(s[0]) {
      assert s == [s[0]] + s[1..];
      assert '.' in s[1..];
      assert (s + Zeros(k))[1..] == s[1..] + Zeros(k);
      TrimStartZeros(s[1..], k);
      DropFirst(s);
    }
  }

  /** What stands before the dot does not matter to the fraction. */
  lemma DropFirst(s: string)
    requires s != [] && s[0] != '.' && '.' in s
    ensures '.' in s[1..] && Fraction(s[1..]) == Fraction(s)
  {
    assert s == [s[0]] + s[1..];
    assert FirstDot(s) == 1 + FirstDot(s[1..]);
  }

  lemma TrimEndZeros(s: string, k: nat)
    requires s != [] && !IsSpace(s[|s| - 1])
    ensures TrimEnd(s + Zeros(k)) == s + Zeros(k)
  {
    if k == 0 {
      assert s + Zeros(k) == s;
    } else {
      assert (s + Zeros(k))[|s + Zeros(k)| - 1] == '0';
    }
  }

  /** Zeros at the end, up to eight places in all, never change the result, accepted or not. */
  lemma TrailingZeros(raw: string, k: nat)
    requires '.' in raw && !IsSpace(raw[|raw| - 1]) && |Fraction(raw)| + k <= 8
    ensures ParseBtc(raw + Zeros(k)) == ParseBtc(raw)
  {
    hide ParseDecimal, TrimStart, TrimEnd, Fraction, Zeros;
    TrimStartZeros(raw, k);
    TrimStartZeros(raw, 0);
    var v := TrimStart(raw);
    TrimEndZeros(v, k);
    TrimEndZeros(v, 0);
    assert v + Zeros(0) == v;
    if "+" <= v {
      DropFirst(v);
      assert (v + Zeros(k))[1..] == v[1..] + Zeros(k);
      DecimalZeros(v[1..], k);
    } else {
      DecimalZeros(v, k);
    }
  }

  // ---------------------------------------------------------------------------
  // White space and signs
  // ---------------------------------------------------------------------------

  predicate AllSpace(s: string) {
    forall i :: 0 <= i < |s| ==> IsSpace(s[i])
  }

  lemma {:induction false} TrimFront(a: string, v: string)
    requires AllSpace(a) && v != [] && !IsSpace(v[0])
    ensures TrimStart(a + v) == v
  {
    hide IsSpace;
    if a == [] {
      assert a + v == v;
    } else {
      assert (a + v)[1..] == a[1..] + v;
      TrimFront(a[1..], v);
    }
  }

  lemma {:induction false} TrimBack(v: string, b: string)
    requires AllSpace(b) && v != [] && !IsSpace(v[|v| - 1])
    ensures TrimEnd(v + b) == v
  {
    hide IsSpace;
    if b == [] {
      assert v + b == v;
    } else {
      assert (v + b)[..|v + b| - 1] == v + b[..|b| - 1];
      TrimBack(v, b[..|b| - 1]);
    }
  }

  lemma {:induction false} NothingLeft(a: string)
    requires AllSpace(a)
    ensures TrimStart(a) == []
  {
    hide IsSpace;
    if a != [] {
      NothingLeft(a[1..]);
    }
  }

  /** White space around an amount and one plus sign before it make no difference; no amount at all is refused. */
  lemma Surroundings(a: string, v: string, b: string)
    requires AllSpace(a) && AllSpace(b) && v != [] && !IsSpace(v[0]) && !IsSpace(v[|v| - 1]) && v[0] != '+'
    ensures ParseBtc(a + v + b) == ParseBtc(a + ("+" + v) + b) == ParseDecimal(v)
    ensures ParseBtc(a) == None
    ensures v[0] == '-' ==> ParseDecimal(v) == None
  {
    hide ParseDecimal, TrimStart, TrimEnd, IsSpace;
    NothingLeft(a);
    EmptyEnd();
    Around(a, v, b);
    PlusIsNoSpace();
    Around(a, "+" + v, b);
    assert ("+" + v)[1..] == v;
    if v[0] == '-' {
      Negative(v);
    }
  }

  lemma Around(a: string, v: string, b: string)
    requires AllSpace(a) && AllSpace(b) && v != [] && !IsSpace(v[0]) && !IsSpace(v[|v| - 1])
    ensures Trim(a + v + b) == v
  {
    hide TrimStart, TrimEnd, IsSpace;
    assert a + v + b == a + (v + b) && (v + b)[0] == v[0];
    TrimFront(a, v + b);
    TrimBack(v, b);
  }

  lemma PlusIsNoSpace()
    ensures !IsSpace('+')
  {
  }

  lemma EmptyEnd()
    ensures TrimEnd([]) == []
  {
  }

  lemma Negative(v: string)
    requires v != [] && v[0] == '-'
    ensures ParseDecimal(v) == None
  {
    assert v[..1] == "-";
  }

  /** The exact conversion accepts precisely the multiples of a satoshi and undoes the multiplication. */
  lemma YoctoExact(yocto: nat, sats: nat)
    ensures YoctoToSatoshis(yocto) == Some(sats) <==> yocto == sats * 10_000_000_000_000_000
  {
  }
}
