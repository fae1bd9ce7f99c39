/**
 * The first P2WPKH address of the "Examples" part of BIP 173, computed by the model: what fixes the
 * generators, the character set, the expansion of the prefix and the order of everything.
 */
module Bech32Vector {
  import opened Radix
  import opened Bytes
  import opened Polymod
  import opened Regroup
  import opened Bech32

  /** bc1qw508d6qejxtdg4y5r3zarvary0c5xw7kv8f3t4, in the pieces it is computed in. */
  const PUBLISHED: string := "bc" + "1" + (("q" + ("w508d6qe" + "jxtdg4y5" + "r3zarvar" + "y0c5xw7k")) + "v8f3t4")

  const HASH: seq<Byte> := G0 + G1 + G2 + G3
  const G0: seq<Byte> := [0x75, 0x1e, 0x76, 0xe8, 0x19]
  const G1: seq<Byte> := [0x91, 0x96, 0xd4, 0x54, 0x94]
  const G2: seq<Byte> := [0x1c, 0x45, 0xd1, 0xb3, 0xa3]
  const G3: seq<Byte> := [0x23, 0xf1, 0x43, 0x3b, 0xd6]
  const S0: seq<Symbol> := [14, 20, 15, 7, 13, 26, 0, 25]
  const S1: seq<Symbol> := [18, 6, 11, 13, 8, 21, 4, 20]
  const S2: seq<Symbol> := [3, 17, 2, 29, 3, 12, 29, 3]
  const S3: seq<Symbol> := [4, 15, 24, 20, 6, 14, 30, 22]
  const CHECK: seq<Symbol> := [12, 7, 9, 17, 11, 21]

  // ---------------------------------------------------------------------------
  // The symbols of the hash
  // ---------------------------------------------------------------------------

  function Five(b: seq<nat>): nat
    requires |b| == 5
  {
    (((b[0] * 256 + b[1]) * 256 + b[2]) * 256 + b[3]) * 256 + b[4]
  }

  function Eight(s: seq<nat>): nat
    requires |s| == 8
  {
    ((((((s[0] * 32 + s[1]) * 32 + s[2]) * 32 + s[3]) * 32 + s[4]) * 32 + s[5]) * 32 + s[6]) * 32 + s[7]
  }

  lemma ValueSnoc(base: nat, digits: seq<nat>, n: nat)
    requires n < |digits|
    ensures Value(base, digits[..n + 1]) == Value(base, digits[..n]) * base + digits[n]
  {
    assert digits[..n + 1] == digits[..n] + [digits[n]];
    ValueAppend(base, digits[..n], digits[n]);
  }

  lemma FiveIs(b: seq<nat>)
    requires |b| == 5
    ensures Value(256, b) == Five(b)
  {
    hide Value;
    assert b[..0] == [] && b[..5] == b;
    ValueOfNothing(256);
    ValueSnoc(256, b, 0);
    ValueSnoc(256, b, 1);
    ValueSnoc(256, b, 2);
    ValueSnoc(256, b, 3);
    ValueSnoc(256, b, 4);
  }

  lemma EightIs(s: seq<nat>)
    requires |s| == 8
    ensures Value(32, s) == Eight(s)
  {
    hide Value;
    assert s[..0] == [] && s[..8] == s;
    ValueOfNothing(32);
    ValueSnoc(32, s, 0);
    ValueSnoc(32, s, 1);
    ValueSnoc(32, s, 2);
    ValueSnoc(32, s, 3);
    ValueSnoc(32, s, 4);
    ValueSnoc(32, s, 5);
    ValueSnoc(32, s, 6);
    ValueSnoc(32, s, 7);
  }

  lemma {:induction false} ValueConcat(base: nat, a: seq<nat>, b: seq<nat>)
    ensures Value(base, a + b) == Value(base, a) * Pow(base, |b|) + Value(base, b)
  {
    hide Pow;
    if b == [] {
      assert a + b == a;
      PowOfNothing(base);
    } else {
      var n := |b| - 1;
      ValueConcat(base, a, b[..n]);
      assert (a + b)[..|a| + n] == a + b[..n];
      PowStep(base, n);
      ConcatStep(base, Value(base, a), Pow(base, n), Value(base, b[..n]), b[n]);
    }
  }

  lemma PowStep(base: nat, n: nat)
    ensures Pow(base, n + 1) == base * Pow(base, n)
  {
  }

  lemma ConcatStep(base: nat, a: nat, p: nat, b: nat, d: nat)
    ensures (a * p + b) * base + d == a * (base * p) + (b * base + d)
  {
    assert (a * p) * base == a * (base * p);
  }

  /** Five bytes and eight symbols of the same number, behind others of the same number. */
  lemma GroupStep(bytes: seq<Byte>, symbols: seq<Symbol>, g: seq<Byte>, s: seq<Symbol>)
    requires |g| == 5 && |s| == 8 && Five(g) == Eight(s) && Value(256, bytes) == Value(32, symbols)
    ensures Value(256, bytes + g) == Value(32, symbols + s)
  {
    hide Pow, Value, Five, Eight;
    FiveIs(g);
    EightIs(s);
    ValueConcat(256, bytes, g);
    ValueConcat(32, symbols, s);
    Widths();
    PowOfPow(2, 8, 5);
    PowOfPow(2, 5, 8);
  }

  lemma HashSymbols()
    ensures ToSymbols(HASH) == S0 + S1 + S2 + S3
  {
    hide Value, Pow, ToSymbols;
    ValueOfNothing(256);
    ValueOfNothing(32);
    GroupStep([], [], G0, S0);
    assert [] + G0 == G0 && [] + S0 == S0;
    GroupStep(G0, S0, G1, S1);
    GroupStep(G0 + G1, S0 + S1, G2, S2);
    GroupStep(G0 + G1 + G2, S0 + S1 + S2, G3, S3);
    PowOfNothing(2);
    SymbolsByValue(HASH, S0 + S1 + S2 + S3, 0);
  }

  // ---------------------------------------------------------------------------
  // The register
  // ---------------------------------------------------------------------------

  /** One symbol takes the register from `z` to `z'`, by the bits alone. */
  predicate Goes(z: bv32, v: Symbol, z': bv32) {
    Xor(Xor(Rest(z), Word(v)), Masked(Top(z))) == z'
  }

  lemma Follow(c: bv32, x: seq<Symbol>, z: bv32, v: Symbol, z': bv32)
    requires PolymodFrom(c, x) == z && Goes(z, v, z')
    ensures PolymodFrom(c, x + [v]) == z'
  {
    hide Xor, Rest, Top, Masked, Word;
    FeedbackIsMasked(Top(z));
    assert (x + [v])[..|x|] == x;
  }

  lemma Start(c: bv32)
    ensures PolymodFrom(c, []) == c
  {
  }

  lemma Prefix()
    ensures PolymodFrom(0x1, [3, 3, 0, 2, 3]) == 0x2318043
  {
    hide PolymodFrom;
    Start(0x1);
    Follow(0x1, [], 0x1, 3, 0x23);
    assert [] + [3] == [3];
    Follow(0x1, [3], 0x23, 3, 0x463);
    assert [3] + [3] == [3, 3];
    Follow(0x1, [3, 3], 0x463, 0, 0x8c60);
    assert [3, 3] + [0] == [3, 3, 0];
    Follow(0x1, [3, 3, 0], 0x8c60, 2, 0x118c02);
    assert [3, 3, 0] + [2] == [3, 3, 0, 2];
    Follow(0x1, [3, 3, 0, 2], 0x118c02, 3, 0x2318043);
    assert [3, 3, 0, 2] + [3] == [3, 3, 0, 2, 3];
  }

  lemma Version()
    ensures PolymodFrom(0x2318043, [0]) == 0x3d5a5fd2
  {
    hide PolymodFrom;
    Start(0x2318043);
    Follow(0x2318043, [], 0x2318043, 0, 0x3d5a5fd2);
    assert [] + [0] == [0];
  }

  lemma Group0()
    ensures PolymodFrom(0x3d5a5fd2, S0) == 0x2b1bcbce
  {
    hide PolymodFrom;
    Start(0x3d5a5fd2);
    Follow(0x3d5a5fd2, [], 0x3d5a5fd2, 14, 0x4ec3cb7);
    assert [] + [14] == [14];
    Follow(0x3d5a5fd2, [14], 0x4ec3cb7, 20, 0x3bd71899);
    assert [14] + [20] == [14, 20];
    Follow(0x3d5a5fd2, [14, 20], 0x3bd71899, 15, 0x87e0c09);
    assert [14, 20] + [15] == [14, 20, 15];
    Follow(0x3d5a5fd2, [14, 20, 15], 0x87e0c09, 7, 0x116098dd);
    assert [14, 20, 15] + [7] == [14, 20, 15, 7];
    Follow(0x3d5a5fd2, [14, 20, 15, 7], 0x116098dd, 13, 0x11512870);
    assert [14, 20, 15, 7] + [13] == [14, 20, 15, 7, 13];
    Follow(0x3d5a5fd2, [14, 20, 15, 7, 13], 0x11512870, 26, 0x17673dc7);
    assert [14, 20, 15, 7, 13] + [26] == [14, 20, 15, 7, 13, 26];
    Follow(0x3d5a5fd2, [14, 20, 15, 7, 13, 26], 0x17673dc7, 0, 0xc9f52e2);
    assert [14, 20, 15, 7, 13, 26] + [0] == [14, 20, 15, 7, 13, 26, 0];
    Follow(0x3d5a5fd2, [14, 20, 15, 7, 13, 26, 0], 0xc9f52e2, 25, 0x2b1bcbce);
    assert [14, 20, 15, 7, 13, 26, 0] + [25] == [14, 20, 15, 7, 13, 26, 0, 25];
    assert [14, 20, 15, 7, 13, 26, 0, 25] == S0;
  }

  lemma Group1()
    ensures PolymodFrom(0x2b1bcbce, S1) == 0x23a1ff4b
  {
    hide PolymodFrom;
    Start(0x2b1bcbce);
    Follow(0x2b1bcbce, [], 0x2b1bcbce, 18, 0x2ca65529);
    assert [] + [18] == [18];
    Follow(0x2b1bcbce, [18], 0x2ca65529, 6, 0x62f5002);
    assert [18] + [6] == [18, 6];
    Follow(0x2b1bcbce, [18, 6], 0x62f5002, 11, 0x18d0d994);
    assert [18, 6] + [11] == [18, 6, 11];
    Follow(0x2b1bcbce, [18, 6, 11], 0x18d0d994, 13, 0x39f818aa);
    assert [18, 6, 11] + [13] == [18, 6, 11, 13];
    Follow(0x2b1bcbce, [18, 6, 11, 13], 0x39f818aa, 8, 0x36f45ddc);
    assert [18, 6, 11, 13] + [8] == [18, 6, 11, 13, 8];
    Follow(0x2b1bcbce, [18, 6, 11, 13, 8], 0x36f45ddc, 21, 0x14e73324);
    assert [18, 6, 11, 13, 8] + [21] == [18, 6, 11, 13, 8, 21];
    Follow(0x2b1bcbce, [18, 6, 11, 13, 8, 21], 0x14e73324, 4, 0x7f4d934);
    assert [18, 6, 11, 13, 8, 21] + [4] == [18, 6, 11, 13, 8, 21, 4];
    Follow(0x2b1bcbce, [18, 6, 11, 13, 8, 21, 4], 0x7f4d934, 20, 0x23a1ff4b);
    assert [18, 6, 11, 13, 8, 21, 4] + [20] == [18, 6, 11, 13, 8, 21, 4, 20];
    assert [18, 6, 11, 13, 8, 21, 4, 20] == S1;
  }

  lemma Group2()
    ensures PolymodFrom(0x23a1ff4b, S2) == 0x2a387174
  {
    hide PolymodFrom;
    Start(0x23a1ff4b);
    Follow(0x23a1ff4b, [], 0x23a1ff4b, 3, 0x2541dc62);
    assert [] + [3] == [3];
    Follow(0x23a1ff4b, [3], 0x2541dc62, 17, 0x247f608f);
    assert [3] + [17] == [3, 17];
    Follow(0x23a1ff4b, [3, 17], 0x247f608f, 2, 0x3a8fd3c);
    assert [3, 17] + [2] == [3, 17, 2];
    Follow(0x23a1ff4b, [3, 17, 2], 0x3a8fd3c, 29, 0xe75f02f);
    assert [3, 17, 2] + [29] == [3, 17, 2, 29];
    Follow(0x23a1ff4b, [3, 17, 2, 29], 0xe75f02f, 3, 0xd25c5c6);
    assert [3, 17, 2, 29] + [3] == [3, 17, 2, 29, 3];
    Follow(0x23a1ff4b, [3, 17, 2, 29, 3], 0xd25c5c6, 12, 0x1c492f5b);
    assert [3, 17, 2, 29, 3] + [12] == [3, 17, 2, 29, 3, 12];
    Follow(0x23a1ff4b, [3, 17, 2, 29, 3, 12], 0x1c492f5b, 29, 0xc964f37);
    assert [3, 17, 2, 29, 3, 12] + [29] == [3, 17, 2, 29, 3, 12, 29];
    Follow(0x23a1ff4b, [3, 17, 2, 29, 3, 12, 29], 0xc964f37, 3, 0x2a387174);
    assert [3, 17, 2, 29, 3, 12, 29] + [3] == [3, 17, 2, 29, 3, 12, 29, 3];
    assert [3, 17, 2, 29, 3, 12, 29, 3] == S2;
  }

  lemma Group3()
    ensures PolymodFrom(0x2a387174, S3) == 0x979c4ed
  {
    hide PolymodFrom;
    Start(0x2a387174);
    Follow(0x2a387174, [], 0x2a387174, 4, 0x8d1027f);
    assert [] + [4] == [4];
    Follow(0x2a387174, [4], 0x8d1027f, 15, 0x4815615);
    assert [4] + [15] == [4, 15];
    Follow(0x2a387174, [4, 15], 0x4815615, 24, 0x367a4cd5);
    assert [4, 15] + [24] == [4, 15, 24];
    Follow(0x2a387174, [4, 15, 24], 0x367a4cd5, 20, 0x5251205);
    assert [4, 15, 24] + [20] == [4, 15, 24, 20];
    Follow(0x2a387174, [4, 15, 24, 20], 0x5251205, 6, 0x2f2cecb);
    assert [4, 15, 24, 20] + [6] == [4, 15, 24, 20, 6];
    Follow(0x2a387174, [4, 15, 24, 20, 6], 0x2f2cecb, 14, 0x25338edc);
    assert [4, 15, 24, 20, 6] + [14] == [4, 15, 24, 20, 6, 14];
    Follow(0x2a387174, [4, 15, 24, 20, 6, 14], 0x25338edc, 30, 0x2a353740);
    assert [4, 15, 24, 20, 6, 14] + [30] == [4, 15, 24, 20, 6, 14, 30];
    Follow(0x2a387174, [4, 15, 24, 20, 6, 14, 30], 0x2a353740, 22, 0x979c4ed);
    assert [4, 15, 24, 20, 6, 14, 30] + [22] == [4, 15, 24, 20, 6, 14, 30, 22];
    assert [4, 15, 24, 20, 6, 14, 30, 22] == S3;
  }

  lemma Tail()
    ensures PolymodFrom(0x979c4ed, Zeros(6)) == 0x1874c574
  {
    hide PolymodFrom;
    Start(0x979c4ed);
    Follow(0x979c4ed, [], 0x979c4ed, 0, 0x3199845a);
    assert [] + [0] == [0];
    Follow(0x979c4ed, [0], 0x3199845a, 0, 0x2466da2e);
    assert [0] + [0] == [0, 0];
    Follow(0x979c4ed, [0, 0], 0x2466da2e, 0, 0x9fa91e);
    assert [0, 0] + [0] == [0, 0, 0];
    Follow(0x979c4ed, [0, 0, 0], 0x9fa91e, 0, 0x13f523c0);
    assert [0, 0, 0] + [0] == [0, 0, 0, 0];
    Follow(0x979c4ed, [0, 0, 0, 0], 0x13f523c0, 0, 0x388c1c6f);
    assert [0, 0, 0, 0] + [0] == [0, 0, 0, 0, 0];
    Follow(0x979c4ed, [0, 0, 0, 0, 0], 0x388c1c6f, 0, 0x1874c574);
    assert [0, 0, 0, 0, 0] + [0] == [0, 0, 0, 0, 0, 0];
    assert [0, 0, 0, 0, 0, 0] == Zeros(6);
  }

  lemma Register()
    ensures PolymodFrom(1, [3, 3, 0, 2, 3] + ([0] + (S0 + S1 + S2 + S3)) + Zeros(6)) == 0x1874c574
  {
    hide PolymodFrom;
    Prefix();
    Version();
    Group0();
    Group1();
    Group2();
    Group3();
    Tail();
    var p: seq<Symbol>, v: seq<Symbol> := [3, 3, 0, 2, 3], [0];
    Append(1, p, v);
    Append(1, p + v, S0);
    Append(1, p + v + S0, S1);
    Append(1, p + v + S0 + S1, S2);
    Append(1, p + v + S0 + S1 + S2, S3);
    Append(1, p + v + S0 + S1 + S2 + S3, Zeros(6));
    assert p + ([0] + (S0 + S1 + S2 + S3)) + Zeros(6) == p + v + S0 + S1 + S2 + S3 + Zeros(6);
  }

  lemma CheckSymbols()
    ensures ChecksumOf(0x1874c575) == CHECK
  {
    assert Digit(0x1874c575, 25) == 12;
    assert Digit(0x1874c575, 20) == 7;
    assert Digit(0x1874c575, 15) == 9;
    assert Digit(0x1874c575, 10) == 17;
    assert Digit(0x1874c575, 5) == 11;
    assert Digit(0x1874c575, 0) == 21;
  }

  // ---------------------------------------------------------------------------
  // The address
  // ---------------------------------------------------------------------------

  lemma CharsConcat(a: seq<Symbol>, b: seq<Symbol>)
    ensures Chars(a + b) == Chars(a) + Chars(b)
  {
    hide CharOf;
  }

  lemma Spelling()
    ensures Chars([0]) == "q"
    ensures Chars(S0) == "w508d6qe"
    ensures Chars(S1) == "jxtdg4y5"
    ensures Chars(S2) == "r3zarvar"
    ensures Chars(S3) == "y0c5xw7k"
    ensures Chars(CHECK) == "v8f3t4"
  {
  }

  /** The encoders turn the hash of the example into its published address, and the decoder turns it back. */
  lemma PublishedAddress()
    ensures IsByteString("bc") && Address("bc", 0, HASH) == PUBLISHED
    ensures DecodeProgram(PUBLISHED).Some? && DecodeProgram(PUBLISHED).value == HASH
  {
    hide ToSymbols, PolymodFrom, ChecksumOf, Chars, HrpExpand, Xor, DecodeProgram;
    HashSymbols();
    KnownExpansions();
    Register();
    XorOne();
    CheckSymbols();
    var data: seq<Symbol> := [0] + (S0 + S1 + S2 + S3);
    CharsConcat(data, CHECK);
    CharsConcat([0], S0 + S1 + S2 + S3);
    CharsConcat(S0 + S1 + S2, S3);
    CharsConcat(S0 + S1, S2);
    CharsConcat(S0, S1);
    Spelling();
    DecodeEncoded("bc", 0, HASH);
  }

  lemma XorOne()
    ensures Xor(0x1874c574, 1) == 0x1874c575
  {
  }
}
