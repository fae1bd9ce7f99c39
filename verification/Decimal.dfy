/** Decimal text of unsigned numbers, as Rust prints and parses a u128. */
module Decimal {
  import opened Options
  import opened Radix

  const U64: nat := 0x1_0000_0000_0000_0000
  const U128: nat := 0x1_0000_0000_0000_0000_0000_0000_0000_0000

  predicate IsDigit(c: char) {
    '0' <= c <= '9'
  }

  predicate AllDigits(s: string) {
    forall i :: 0 <= i < |s| ==> IsDigit(s[i])
  }

  /** The number a digit string stands for; characters that are not digits count as zero. */
  function Number(s: string): nat {
    if s == [] then 0
    else Number(s[..|s| - 1]) * 10 + (if IsDigit(s[|s| - 1]) then s[|s| - 1] as nat - '0' as nat else 0)
  }

  function DigitChar(d: nat): (c: char)
    requires d < 10
    ensures IsDigit(c) && c as nat - '0' as nat == d
  {
    ('0' as nat + d) as char
  }

  function ToString(n: nat): (s: string)
    ensures s != [] && AllDigits(s)
  {
    if n < 10 then [DigitChar(n)] else ToString(n / 10) + [DigitChar(n % 10)]
  }

  /** One leading plus sign is allowed, an empty rest is not, and the value must fit. */
  function ParseU128(s: string): Option<nat> {
    var t := if "+" <= s then s[1..] else s;
    if t == [] || !AllDigits(t) || Number(t) >= U128 then None else Some(Number(t))
  }

  lemma {:induction false} NumberOfString(n: nat)
    ensures Number(ToString(n)) == n
  {
    var s := ToString(n);
    if n >= 10 {
      NumberOfString(n / 10);
      assert s[..|s| - 1] == ToString(n / 10);
    } else {
      assert s[..|s| - 1] == [];
    }
  }

  /** What is printed is parsed back. */
  lemma ParsePrinted(n: nat)
    requires n < U128
    ensures ParseU128(ToString(n)) == Some(n)
  {
    NumberOfString(n);
    var s := ToString(n);
    assert IsDigit(s[0]);
  }

  /** The largest number that is parsed, and the next. */
  lemma LargestParsed()
    ensures ParseU128(ToString(340282366920938463463374607431768211455))
            == Some(340282366920938463463374607431768211455)
    ensures ParseU128(ToString(340282366920938463463374607431768211456)) == None
  {
    hide ToString, Number;
    ParsePrinted(340282366920938463463374607431768211455);
    var s := ToString(340282366920938463463374607431768211456);
    NumberOfString(340282366920938463463374607431768211456);
    assert IsDigit(s[0]);
  }

  /** Digits are read from the left, each for its own value. */
  lemma DigitNumber(c: char)
    requires IsDigit(c)
    ensures Number([c]) == c as nat - '0' as nat
  {
    assert [c][..0] == [];
  }

  /** Digits without a superfluous zero in front are exactly what is printed for their number. */
  lemma {:induction false} PrintedIs(s: string)
    requires s != [] && AllDigits(s) && (|s| > 1 ==> s[0] != '0')
    ensures ToString(Number(s)) == s
  {
    hide Number, ToString;
    var init, last := s[..|s| - 1], s[|s| - 1];
    var d := last as nat - '0' as nat;
    assert DigitChar(d) == last;
    assert s == init + [last];
    NumberSnoc(s);
    if init == [] {
      NoNumber();
      PrintedDigit(d);
    } else {
      assert init[0] == s[0];
      PrintedIs(init);
      NotZero(init);
      PrintedMore(Number(init), d);
    }
  }

  lemma NumberSnoc(s: string)
    requires s != [] && IsDigit(s[|s| - 1])
    ensures Number(s) == Number(s[..|s| - 1]) * 10 + (s[|s| - 1] as nat - '0' as nat)
  {
  }

  lemma NoNumber()
    ensures Number([]) == 0
  {
  }

  lemma PrintedDigit(d: nat)
    requires d < 10
    ensures ToString(d) == [DigitChar(d)]
  {
  }

  lemma PrintedMore(n: nat, d: nat)
    requires n > 0 && d < 10
    ensures ToString(n * 10 + d) == ToString(n) + [DigitChar(d)]
  {
    assert (n * 10 + d) / 10 == n && (n * 10 + d) % 10 == d;
  }

  lemma {:induction false} NotZero(s: string)
    requires s != [] && AllDigits(s) && s[0] != '0'
    ensures Number(s) > 0
  {
    if |s| > 1 {
      NotZero(s[..|s| - 1]);
    } else {
      DigitNumber(s[0]);
      assert s == [s[0]];
    }
  }

  /** One plus sign in front changes nothing, and a second one is no digit. */
  lemma PlusSign(s: string)
    requires s != [] && AllDigits(s)
    ensures ParseU128(s) == ParseU128("+" + s) == if Number(s) < U128 then Some(Number(s)) else None
    ensures ParseU128("+" + ("+" + s)) == None && ParseU128("-" + s) == None
  {
    hide Number;
    assert IsDigit(s[0]);
    assert ("+" + s)[1..] == s;
    var t := "+" + s;
    assert ("+" + t)[1..] == t && !IsDigit(t[0]);
    assert ("-" + s)[0] == '-' && !IsDigit('-');
  }

  lemma {:induction false} NumberConcat(a: string, b: string)
    ensures Number(a + b) == Number(a) * Pow(10, |b|) + Number(b)
  {
    if b == [] {
      assert a + b == a;
    } else {
      var init := b[..|b| - 1];
      NumberConcat(a, init);
      assert (a + b)[..|a + b| - 1] == a + init;
      MulAssociates(Number(a), Pow(10, |init|), 10);
    }
  }

  lemma {:induction false} NumberBelow(s: string)
    ensures Number(s) < Pow(10, |s|)
  {
    if s != [] {
      NumberBelow(s[..|s| - 1]);
    }
  }
}
