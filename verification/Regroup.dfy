/**
 * The bit regrouping of Bech32 addresses: eight-bit bytes to five-bit symbols and back, through
 * the 32-bit accumulator of the source. `acc << k` on a u32 is `acc * 2^k` modulo 2^32, `acc >> k`
 * is division by 2^k, and a mask with 31 or 255 is a remainder.
 */
module Regroup {
  import opened Radix
  import opened Polymod
  import opened Bytes

  const WORD: nat := 0x1_0000_0000

  /** The symbols that hold `n` bytes, and the zero bits that fill up the last of them. */
  function SymbolCount(n: nat): nat {
    (8 * n + 4) / 5
  }

  function Padding(n: nat): nat {
    5 * SymbolCount(n) - 8 * n
  }

  /** The bytes as one number, moved up by the padding, in symbols. */
  function ToSymbols(bytes: seq<Byte>): (r: seq<Symbol>)
    ensures |r| == SymbolCount(|bytes|)
  {
    var digits := Digits(32, SymbolCount(|bytes|), Value(256, bytes) * Pow(2, Padding(|bytes|)));
    DigitsBelow(32, SymbolCount(|bytes|), Value(256, bytes) * Pow(2, Padding(|bytes|)));
    seq(|digits|, i requires 0 <= i < |digits| => assert Below(digits, 32); digits[i])
  }

  /** The symbols as one number without the bits that do not fill a byte, in bytes. */
  function ToBytes(symbols: seq<Symbol>): (r: seq<Byte>)
    ensures |r| == 5 * |symbols| / 8
  {
    var digits := Digits(256, 5 * |symbols| / 8, Value(32, symbols) / Pow(2, 5 * |symbols| % 8));
    DigitsBelow(256, 5 * |symbols| / 8, Value(32, symbols) / Pow(2, 5 * |symbols| % 8));
    seq(|digits|, i requires 0 <= i < |digits| => assert Below(digits, 256); digits[i])
  }

  lemma ToSymbolsDigits(bytes: seq<Byte>)
    ensures ToSymbols(bytes) == Digits(32, SymbolCount(|bytes|), Value(256, bytes) * Pow(2, Padding(|bytes|)))
  {
  }

  lemma ToBytesDigits(symbols: seq<Symbol>)
    ensures ToBytes(symbols) == Digits(256, 5 * |symbols| / 8, Value(32, symbols) / Pow(2, 5 * |symbols| % 8))
  {
  }

  // ---------------------------------------------------------------------------
  // The accumulator
  // ---------------------------------------------------------------------------

  lemma Widths()
    ensures Pow(2, 5) == 32 && Pow(2, 8) == 256 && Pow(2, 32) == WORD
  {
    PowProduct(2, 8, 8);
    PowProduct(2, 16, 16);
  }

  lemma RemainderOfRemainder(n: nat, q: nat, m: nat)
    requires q > 0 && m > 0 && q * m > 0
    ensures (n % (q * m)) % m == n % m
  {
    var t, r := n / (q * m), n % (q * m);
    var high, low := r / m, r % m;
    assert n == t * (q * m) + r;
    assert r == high * m + low;
    MulAssociates(t, q, m);
    assert n == (t * q + high) * m + low by {
      Distribute(t * q, high, m);
    }
    DivStep(m, t * q + high, low);
  }

  lemma Distribute(a: int, b: int, c: int)
    ensures (a + b) * c == a * c + b * c
  {
  }


  /** Cutting the accumulator to `a` bits does not touch its low bits. */
  lemma CutKeepsLow(n: nat, a: nat, k: nat)
    requires k <= a
    ensures (n % Pow(2, a)) % Pow(2, k) == n % Pow(2, k)
  {
    hide Pow;
    PowProduct(2, a - k, k);
    RemainderOfRemainder(n, Pow(2, a - k), Pow(2, k));
  }

  /** `k` new bits below the low bits of the accumulator. */
  lemma LowAfterShift(acc: nat, p: nat, k: nat, x: nat)
    requires p > 0 && x < k
    ensures (acc * k + x) % (p * k) == (acc % p) * k + x
  {
    var q, r := acc / p, acc % p;
    assert acc == q * p + r;
    MulMonotone(r + 1, p, k);
    assert acc * k + x == q * (p * k) + (r * k + x) by {
      MulAssociates(q, p, k);
    }
    DivStep(p * k, q, r * k + x);
  }

  lemma ShiftRoom(acc: nat, k: nat, x: nat)
    requires k <= 32 && x < Pow(2, k)
    ensures (acc * Pow(2, k)) % WORD + x == (acc * Pow(2, k) + x) % WORD
  {
    Widths();
    PowProduct(2, 32 - k, k);
    LowAfterShift(acc, Pow(2, 32 - k), Pow(2, k), x);
    LowAfterShift(acc, Pow(2, 32 - k), Pow(2, k), 0);
  }

  /** Moving `k` new bits in: only the low bits of the accumulator matter. */
  lemma MoveIn(acc: nat, bits: nat, k: nat, x: nat, before: nat, out: nat)
    requires bits + k <= 32 && x < Pow(2, k)
    requires before == out * Pow(2, bits) + acc % Pow(2, bits)
    ensures var acc' := (acc * Pow(2, k)) % WORD + x;
            && acc' < WORD
            && before * Pow(2, k) + x == out * Pow(2, bits + k) + acc' % Pow(2, bits + k)
  {
    hide Pow;
    var p, m := Pow(2, bits), Pow(2, k);
    Widths();
    ShiftRoom(acc, k, x);
    PowProduct(2, bits, k);
    CutKeepsLow(acc * m + x, 32, bits + k);
    LowAfterShift(acc, p, m, x);
    ShiftSum(out, p, acc % p, m);
  }

  lemma ShiftSum(a: nat, p: nat, r: nat, m: nat)
    ensures (a * p + r) * m == a * (p * m) + r * m
  {
    MulAssociates(a, p, m);
    Distribute(a * p, r, m);
  }

  lemma SplitRemainder(acc: nat, p: nat, m: nat)
    requires p > 0 && m > 0 && m * p > 0
    ensures acc % (m * p) == ((acc / p) % m) * p + acc % p
  {
    var q, r := acc / p, acc % p;
    var u, d := q / m, q % m;
    assert q == u * m + d;
    assert acc == q * p + r;
    MulAssociates(u, m, p);
    Distribute(u * m, d, p);
    assert acc == u * (m * p) + (d * p + r);
    MulMonotone(d + 1, m, p);
    Distribute(d, 1, p);
    DivStep(m * p, u, d * p + r);
  }

  /** Moving the `k` oldest of `bits + k` bits out as one digit. */
  lemma MoveOut(acc: nat, bits: nat, k: nat, total: nat, out: nat)
    requires total == out * Pow(2, bits + k) + acc % Pow(2, bits + k)
    ensures var digit := (acc / Pow(2, bits)) % Pow(2, k);
            total == (out * Pow(2, k) + digit) * Pow(2, bits) + acc % Pow(2, bits)
  {
    hide Pow;
    var p, m := Pow(2, bits), Pow(2, k);
    PowProduct(2, k, bits);
    SplitRemainder(acc, p, m);
    MulAssociates(out, m, p);
    Distribute(out * m, (acc / p) % m, p);
  }

  /** The last symbol, filled up with zero bits. */
  lemma FillUp(acc: nat, bits: nat, total: nat, out: nat)
    requires 0 < bits < 5
    requires total == out * Pow(2, bits) + acc % Pow(2, bits)
    ensures var digit := ((acc * Pow(2, 5 - bits)) % WORD) % 32;
            total * Pow(2, 5 - bits) == out * 32 + digit
  {
    hide Pow;
    Widths();
    PowProduct(2, bits, 5 - bits);
    Distribute(out * Pow(2, bits), acc % Pow(2, bits), Pow(2, 5 - bits));
    CutKeepsLow(acc * Pow(2, 5 - bits), 32, 5);
    LowAfterShift(acc, Pow(2, bits), Pow(2, 5 - bits), 0);
    MulAssociates(out, Pow(2, bits), Pow(2, 5 - bits));
  }

  lemma SymbolsAsNats(symbols: seq<Symbol>)
    ensures Below(symbols, 32)
  {
  }

  lemma BytesAsNats(bytes: seq<Byte>)
    ensures Below(bytes, 256)
  {
  }

  // ---------------------------------------------------------------------------
  // The loops
  // ---------------------------------------------------------------------------

  /** Symbols of the right number and value are the encoding. */
  lemma SymbolsByValue(program: seq<Byte>, data: seq<Symbol>, pad: nat)
    requires pad < 5 && 5 * |data| == 8 * |program| + pad
    requires Value(32, data) == Value(256, program) * Pow(2, pad)
    ensures data == ToSymbols(program)
  {
    hide Pow, Value, Digits, ToSymbols;
    SymbolsAsNats(data);
    DigitsOfValue(32, data);
    ToSymbolsDigits(program);
  }

  method EncodeSymbols(program: seq<Byte>) returns (data: seq<Symbol>)
    ensures data == ToSymbols(program)
  {
    hide Pow, Value, ToSymbols;
    data := [];
    ValueOfNothing(32);
    ValueOfNothing(256);
    var acc: nat, bits: nat := 0, 0;
    PowOfNothing(2);
    Widths();
    for i := 0 to |program|
      invariant acc < WORD && bits < 5
      invariant 8 * i == 5 * |data| + bits
      invariant Value(256, program[..i]) == Value(32, data) * Pow(2, bits) + acc % Pow(2, bits)
    {
      assert program[..i + 1] == program[..i] + [program[i]];
      ValueAppend(256, program[..i], program[i]);
      MoveIn(acc, bits, 8, program[i], Value(256, program[..i]), Value(32, data));
      acc := (acc * Pow(2, 8)) % WORD + program[i];
      bits := bits + 8;
      while bits >= 5
        invariant acc < WORD && bits < 13
        invariant 8 * (i + 1) == 5 * |data| + bits
        invariant Value(256, program[..i + 1]) == Value(32, data) * Pow(2, bits) + acc % Pow(2, bits)
      {
        bits := bits - 5;
        MoveOut(acc, bits, 5, Value(256, program[..i + 1]), Value(32, data));
        var digit: Symbol := (acc / Pow(2, bits)) % 32;
        ValueAppend(32, data, digit);
        data := data + [digit];
      }
    }
    assert program[..|program|] == program;
    if bits > 0 {
      FillUp(acc, bits, Value(256, program), Value(32, data));
      var digit: Symbol := ((acc * Pow(2, 5 - bits)) % WORD) % 32;
      ValueAppend(32, data, digit);
      data := data + [digit];
      SymbolsByValue(program, data, 5 - bits);
    } else {
      SymbolsByValue(program, data, 0);
    }
  }

  method DecodeBytes(payload: seq<Symbol>) returns (program: seq<Byte>)
    ensures program == ToBytes(payload)
  {
    hide Pow, Value, ToBytes, Digits;
    program := [];
    ValueOfNothing(32);
    ValueOfNothing(256);
    var acc: nat, bits: nat := 0, 0;
    PowOfNothing(2);
    Widths();
    for i := 0 to |payload|
      invariant acc < WORD && bits < 8
      invariant 5 * i == 8 * |program| + bits
      invariant Value(32, payload[..i]) == Value(256, program) * Pow(2, bits) + acc % Pow(2, bits)
    {
      assert payload[..i + 1] == payload[..i] + [payload[i]];
      ValueAppend(32, payload[..i], payload[i]);
      MoveIn(acc, bits, 5, payload[i], Value(32, payload[..i]), Value(256, program));
      acc := (acc * Pow(2, 5)) % WORD + payload[i];
      bits := bits + 5;
      while bits >= 8
        invariant acc < WORD && bits < 13
        invariant 5 * (i + 1) == 8 * |program| + bits
        invariant Value(32, payload[..i + 1]) == Value(256, program) * Pow(2, bits) + acc % Pow(2, bits)
      {
        bits := bits - 8;
        MoveOut(acc, bits, 8, Value(32, payload[..i + 1]), Value(256, program));
        var digit: Byte := (acc / Pow(2, bits)) % 256;
        ValueAppend(256, program, digit);
        program := program + [digit];
      }
    }
    assert payload[..|payload|] == payload;
    DivStep(Pow(2, bits), Value(256, program), acc % Pow(2, bits));
    BytesAsNats(program);
    DigitsOfValue(256, program);
    ToBytesDigits(payload);
  }

  // ---------------------------------------------------------------------------
  // Round trip
  // ---------------------------------------------------------------------------

  lemma CountsAgree(n: nat)
    ensures 5 * SymbolCount(n) / 8 == n && 5 * SymbolCount(n) % 8 == Padding(n) < 5
  {
  }

  /** The moved-up number fits the symbols. */
  lemma FitsSymbols(bytes: seq<Byte>)
    ensures Value(256, bytes) * Pow(2, Padding(|bytes|)) < Pow(32, SymbolCount(|bytes|))
  {
    hide Pow, Value;
    var n := |bytes|;
    Widths();
    BytesAsNats(bytes);
    ValueBelow(256, bytes);
    PowOfPow(2, 8, n);
    PowOfPow(2, 5, SymbolCount(n));
    PowProduct(2, 8 * n, Padding(n));
    MulLess(Value(256, bytes), Pow(256, n), Pow(2, Padding(n)));
  }

  /** Decoding undoes encoding, whatever the padding. */
  lemma RoundTrip(bytes: seq<Byte>)
    ensures ToBytes(ToSymbols(bytes)) == bytes
  {
    hide Pow, Value, Digits, ToSymbols, ToBytes;
    var n := |bytes|;
    CountsAgree(n);
    ToSymbolsDigits(bytes);
    ToBytesDigits(ToSymbols(bytes));
    FitsSymbols(bytes);
    ValueOfDigits(32, SymbolCount(n), Value(256, bytes) * Pow(2, Padding(n)));
    DivStep(Pow(2, Padding(n)), Value(256, bytes), 0);
    BytesAsNats(bytes);
    DigitsOfValue(256, bytes);
  }
}
