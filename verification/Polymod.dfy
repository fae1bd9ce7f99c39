/**
 * The Bech32 checksum: the BCH code over five-bit symbols of the "Checksum" part of the Bech32
 * section of BIP 173, on the 32-bit words the source uses.
 *
 * The word operations have names of their own, so that the proofs about whole sequences can leave
 * their bits out of sight and work from the small bit-level lemmas.
 */
module Polymod {

  /** A five-bit value, held in a byte by the source. */
  type Symbol = x: nat | x < 32

  const GEN: seq<bv32> := [0x3b6a57b2, 0x26508e6d, 0x1ea119fa, 0x3d4233dd, 0x2a1462b3]

  function Word(v: Symbol): bv32 {
    (v as bv5) as bv32
  }

  function Xor(x: bv32, y: bv32): bv32 {
    x ^ y
  }

  function Shift(z: bv32): bv32 {
    z << 5
  }

  /** The register without its top symbol, moved up by one symbol. */
  function Rest(chk: bv32): bv32 {
    (chk & 0x1ffffff) << 5
  }

  function Top(chk: bv32): bv32 {
    chk >> 25
  }

  predicate Bit(b: bv32, i: nat)
    requires i < 5
  {
    (b >> i) & 1 == 1
  }

  function Pick(on: bool, g: bv32): bv32 {
    if on then g else 0
  }

  /** The register uses thirty bits. */
  predicate Fits(x: bv32) {
    x < 0x40000000
  }

  /** The first generators, each picked by its bit of `b`. */
  function Feedback(b: bv32, gens: seq<bv32>): bv32
    requires |gens| <= 5
  {
    if gens == [] then 0
    else Xor(Feedback(b, gens[..|gens| - 1]), Pick(Bit(b, |gens| - 1), gens[|gens| - 1]))
  }

  /** One symbol enters the register. */
  function Absorb(chk: bv32, v: bv32): bv32 {
    Xor(Xor(Rest(chk), v), Feedback(Top(chk), GEN))
  }

  function PolymodFrom(chk: bv32, values: seq<Symbol>): bv32 {
    if values == [] then chk
    else Absorb(PolymodFrom(chk, values[..|values| - 1]), Word(values[|values| - 1]))
  }

  /** The inner loop over the generators. */
  method Fold(start: bv32, b: bv32) returns (chk: bv32)
    ensures chk == Xor(start, Feedback(b, GEN))
  {
    hide Xor, Bit, Pick;
    chk := start;
    XorZero(start);
    for i := 0 to |GEN|
      invariant chk == Xor(start, Feedback(b, GEN[..i]))
    {
      var gens := GEN[..i + 1];
      assert gens[..i] == GEN[..i] && gens[i] == GEN[i];
      assert Feedback(b, gens) == Xor(Feedback(b, gens[..i]), Pick(Bit(b, i), gens[i]));
      XorPick(start, Feedback(b, GEN[..i]), Bit(b, i), GEN[i]);
      if Bit(b, i) {
        chk := Xor(chk, GEN[i]);
      }
    }
    assert GEN[..|GEN|] == GEN;
  }

  method Polymod(values: seq<Symbol>) returns (chk: bv32)
    ensures chk == PolymodFrom(1, values)
    ensures Fits(chk)
  {
    hide Xor, Bit, Pick, Rest, Top, Word, Feedback;
    chk := 1;
    for n := 0 to |values|
      invariant chk == PolymodFrom(1, values[..n])
    {
      assert values[..n + 1][..n] == values[..n];
      chk := Fold(Xor(Rest(chk), Word(values[n])), Top(chk));
    }
    assert values[..|values|] == values;
    StateBound(1, values);
  }

  // ---------------------------------------------------------------------------
  // Bit-level facts
  // ---------------------------------------------------------------------------

  lemma XorZero(x: bv32)
    ensures Xor(x, 0) == x == Xor(0, x)
    ensures Xor(x, x) == 0
  {
  }

  lemma XorPick(x: bv32, y: bv32, on: bool, g: bv32)
    ensures Xor(x, Xor(y, Pick(on, g))) == if on then Xor(Xor(x, y), g) else Xor(x, y)
  {
    hide Xor;
    XorAssociates(x, y, Pick(on, g));
    XorZero(Xor(x, y));
  }

  lemma XorAssociates(x: bv32, y: bv32, z: bv32)
    ensures Xor(Xor(x, y), z) == Xor(x, Xor(y, z))
  {
  }

  lemma XorCommutes(x: bv32, y: bv32)
    ensures Xor(x, y) == Xor(y, x)
  {
  }

  lemma XorPairs(a: bv32, b: bv32, c: bv32, d: bv32)
    ensures Xor(Xor(a, b), Xor(c, d)) == Xor(Xor(a, c), Xor(b, d))
  {
    hide Xor;
    calc {
      Xor(Xor(a, b), Xor(c, d));
    ==  { XorAssociates(a, b, Xor(c, d)); XorAssociates(b, c, d); }
      Xor(a, Xor(Xor(b, c), d));
    ==  { XorCommutes(b, c); XorAssociates(c, b, d); }
      Xor(a, Xor(c, Xor(b, d)));
    ==  { XorAssociates(a, c, Xor(b, d)); }
      Xor(Xor(a, c), Xor(b, d));
    }
  }

  lemma XorEqual(x: bv32, y: bv32)
    requires Xor(x, y) == 0
    ensures x == y
  {
  }

  lemma XorCancel(z: bv32, a: bv32, b: bv32)
    requires Xor(z, a) == Xor(z, b)
    ensures a == b
  {
  }

  lemma XorTwice(z: bv32, a: bv32)
    ensures Xor(z, Xor(z, a)) == a
  {
  }

  lemma XorFits(x: bv32, y: bv32)
    requires Fits(x) && Fits(y)
    ensures Fits(Xor(x, y))
  {
  }

  lemma BitXor(a: bv32, b: bv32, i: nat)
    requires i < 5
    ensures Bit(Xor(a, b), i) == (Bit(a, i) != Bit(b, i))
  {
    match i case 0 => case 1 => case 2 => case 3 => case 4 =>
  }

  lemma PickXor(p: bool, q: bool, g: bv32)
    ensures Pick(p != q, g) == Xor(Pick(p, g), Pick(q, g))
  {
    hide Xor;
    XorZero(g);
    XorZero(0);
  }

  lemma RestXor(x: bv32, y: bv32)
    ensures Rest(Xor(x, y)) == Xor(Rest(x), Rest(y))
    ensures Top(Xor(x, y)) == Xor(Top(x), Top(y))
  {
  }

  lemma WordFits(v: Symbol)
    ensures Word(v) < 32
  {
  }

  lemma WordOfZero()
    ensures Word(0) == 0
  {
  }

  lemma WordInjective(v: Symbol, w: Symbol)
    requires Word(v) == Word(w)
    ensures v == w
  {
    Bv5Back(v);
    Bv5Back(w);
    WidenInjective(v as bv5, w as bv5);
  }

  lemma Bv5Back(v: Symbol)
    ensures (v as bv5) as nat == v
  {
  }

  lemma WidenInjective(a: bv5, b: bv5)
    requires a as bv32 == b as bv32
    ensures a == b
  {
  }

  /** The feedback written out with its constants. */
  function Masked(b: bv32): bv32 {
    0 ^ Pick(b & 1 != 0, 0x3b6a57b2) ^ Pick(b & 2 != 0, 0x26508e6d) ^ Pick(b & 4 != 0, 0x1ea119fa)
    ^ Pick(b & 8 != 0, 0x3d4233dd) ^ Pick(b & 16 != 0, 0x2a1462b3)
  }

  lemma BitMasks(b: bv32)
    ensures Bit(b, 0) == (b & 1 != 0)
    ensures Bit(b, 1) == (b & 2 != 0)
    ensures Bit(b, 2) == (b & 4 != 0)
    ensures Bit(b, 3) == (b & 8 != 0)
    ensures Bit(b, 4) == (b & 16 != 0)
  {
  }

  lemma MaskedIs(b: bv32)
    ensures Masked(b) == Xor(Xor(Xor(Xor(Xor(0, Pick(b & 1 != 0, GEN[0])), Pick(b & 2 != 0, GEN[1])),
            Pick(b & 4 != 0, GEN[2])),
                                 Pick(b & 8 != 0, GEN[3])), Pick(b & 16 != 0, GEN[4]))
  {
  }

  lemma FeedbackIsMasked(b: bv32)
    ensures Feedback(b, GEN) == Masked(b)
  {
    hide Xor, Pick, Bit, Masked;
    BitMasks(b);
    assert GEN[..5] == GEN && GEN[..4][..3] == GEN[..3] && GEN[..3][..2] == GEN[..2] && GEN[..2][..1] == GEN[..1];
    assert Feedback(b, GEN[..1]) == Xor(0, Pick(Bit(b, 0), GEN[0]));
    assert Feedback(b, GEN[..2]) == Xor(Feedback(b, GEN[..1]), Pick(Bit(b, 1), GEN[1]));
    assert Feedback(b, GEN[..3]) == Xor(Feedback(b, GEN[..2]), Pick(Bit(b, 2), GEN[2]));
    assert Feedback(b, GEN[..4]) == Xor(Feedback(b, GEN[..3]), Pick(Bit(b, 3), GEN[3]));
    assert Feedback(b, GEN) == Xor(Feedback(b, GEN[..4]), Pick(Bit(b, 4), GEN[4]));
    MaskedIs(b);
  }

  /** Only the zero register is sent to zero: the low symbols of the generators are independent. */
  lemma MaskedKernel(z: bv32)
    requires Fits(z) && Xor(Xor(Rest(z), 0), Masked(Top(z))) == 0
    ensures z == 0
  {
  }

  lemma MaskedFits(z: bv32, v: bv32)
    requires Fits(z) && v < 32
    ensures Fits(Xor(Xor(Rest(z), v), Masked(Top(z))))
  {
  }

  lemma MaskedLow(z: bv32, v: bv32)
    requires z < 0x2000000
    ensures Xor(Xor(Rest(z), v), Masked(Top(z))) == Xor(Shift(z), v)
  {
    hide Rest, Top, Shift, Masked, Xor;
    TopEmpty(z);
    NothingMasked();
    XorZero(Xor(Rest(z), v));
  }

  lemma TopEmpty(z: bv32)
    requires z < 0x2000000
    ensures Top(z) == 0 && Rest(z) == Shift(z)
  {
  }

  lemma NothingMasked()
    ensures Masked(0) == 0
  {
  }

  // ---------------------------------------------------------------------------
  // One step
  // ---------------------------------------------------------------------------

  lemma {:induction false} FeedbackXor(a: bv32, b: bv32, gens: seq<bv32>)
    requires |gens| <= 5
    ensures Feedback(Xor(a, b), gens) == Xor(Feedback(a, gens), Feedback(b, gens))
  {
    hide Xor, Pick, Bit;
    if gens == [] {
      XorZero(0);
    } else {
      var init, g, i := gens[..|gens| - 1], gens[|gens| - 1], |gens| - 1;
      FeedbackXor(a, b, init);
      BitXor(a, b, i);
      PickXor(Bit(a, i), Bit(b, i), g);
      XorPairs(Feedback(a, init), Feedback(b, init), Pick(Bit(a, i), g), Pick(Bit(b, i), g));
    }
  }

  /** The register is linear over exclusive or. */
  lemma AbsorbLinear(x: bv32, y: bv32, v: bv32, w: bv32)
    ensures Absorb(Xor(x, y), Xor(v, w)) == Xor(Absorb(x, v), Absorb(y, w))
  {
    hide Xor, Rest, Top, Feedback;
    RestXor(x, y);
    FeedbackXor(Top(x), Top(y), GEN);
    XorPairs(Rest(x), Rest(y), v, w);
    XorPairs(Xor(Rest(x), v), Xor(Rest(y), w), Feedback(Top(x), GEN), Feedback(Top(y), GEN));
  }

  lemma AbsorbFits(z: bv32, v: bv32)
    requires Fits(z) && v < 32
    ensures Fits(Absorb(z, v))
  {
    hide Xor, Rest, Top, Feedback, Masked, Fits;
    FeedbackIsMasked(Top(z));
    MaskedFits(z, v);
  }

  /** A register with its top symbol clear only shifts. */
  lemma AbsorbLow(z: bv32, v: bv32)
    requires z < 0x2000000
    ensures Absorb(z, v) == Xor(Shift(z), v)
  {
    hide Xor, Rest, Top, Feedback, Masked, Shift;
    FeedbackIsMasked(Top(z));
    MaskedLow(z, v);
  }

  lemma AbsorbInjective(x: bv32, y: bv32, v: bv32)
    requires Fits(x) && Fits(y)
    requires Absorb(x, v) == Absorb(y, v)
    ensures x == y
  {
    hide Xor, Rest, Top, Feedback, Masked, Fits;
    var z := Xor(x, y);
    AbsorbLinear(x, y, v, v);
    XorZero(v);
    XorZero(Absorb(x, v));
    FeedbackIsMasked(Top(z));
    XorFits(x, y);
    MaskedKernel(z);
    XorEqual(x, y);
  }

  // ---------------------------------------------------------------------------
  // Whole sequences
  // ---------------------------------------------------------------------------

  /** The register never leaves its thirty bits. */
  lemma {:induction false} StateBound(chk: bv32, values: seq<Symbol>)
    requires Fits(chk)
    ensures Fits(PolymodFrom(chk, values))
  {
    hide Absorb, Word, Fits;
    if values != [] {
      StateBound(chk, values[..|values| - 1]);
      WordFits(values[|values| - 1]);
      AbsorbFits(PolymodFrom(chk, values[..|values| - 1]), Word(values[|values| - 1]));
    }
  }

  lemma {:induction false} Append(chk: bv32, a: seq<Symbol>, b: seq<Symbol>)
    ensures PolymodFrom(chk, a + b) == PolymodFrom(PolymodFrom(chk, a), b)
  {
    hide Absorb, Word;
    if b == [] {
      assert a + b == a;
    } else {
      Append(chk, a, b[..|b| - 1]);
      assert (a + b)[..|a + b| - 1] == a + b[..|b| - 1];
    }
  }

  /** Symbols that have just entered, next to each other, the latest in the low bits. */
  function Pack(x: seq<Symbol>): bv32 {
    if x == [] then 0 else Xor(Shift(Pack(x[..|x| - 1])), Word(x[|x| - 1]))
  }

  /** The first word that does not fit in `k` symbols. */
  function Cap(k: nat): bv32
    requires k <= 6
  {
    match k
    case 0 => 1
    case 1 => 0x20
    case 2 => 0x400
    case 3 => 0x8000
    case 4 => 0x100000
    case 5 => 0x2000000
    case 6 => 0x40000000
  }

  lemma CapStep(z: bv32, v: bv32, k: nat)
    requires k < 6 && z < Cap(k) && v < 32
    ensures Xor(Shift(z), v) < Cap(k + 1)
  {
    match k case 0 => case 1 => case 2 => case 3 => case 4 => case 5 =>
  }

  lemma CapLow(z: bv32, k: nat)
    requires k <= 5 && z < Cap(k)
    ensures z < 0x2000000
  {
    match k case 0 => case 1 => case 2 => case 3 => case 4 => case 5 =>
  }

  lemma {:induction false} PackBound(x: seq<Symbol>)
    requires |x| <= 6
    ensures Pack(x) < Cap(|x|)
  {
    hide Xor, Shift, Word, Cap;
    if x == [] {
      CapOfZero();
    } else {
      PackBound(x[..|x| - 1]);
      WordFits(x[|x| - 1]);
      CapStep(Pack(x[..|x| - 1]), Word(x[|x| - 1]), |x| - 1);
    }
  }

  lemma PackLow(x: seq<Symbol>)
    requires |x| <= 5
    ensures Pack(x) < 0x2000000
  {
    hide Pack, Cap;
    PackBound(x);
    CapLow(Pack(x), |x|);
  }

  lemma CapOfZero()
    ensures 0 < Cap(0)
  {
  }

  function Zeros(k: nat): seq<Symbol> {
    seq(k, _ => 0)
  }

  /** The last six symbols are simply added to what zeros would have given. */
  lemma {:induction false} Superpose(chk: bv32, x: seq<Symbol>)
    requires |x| <= 6
    ensures PolymodFrom(chk, x) == Xor(PolymodFrom(chk, Zeros(|x|)), Pack(x))
  {
    hide Absorb, Xor, Shift, Word;
    if x == [] {
      assert Zeros(0) == [];
      XorZero(chk);
    } else {
      var x', v := x[..|x| - 1], x[|x| - 1];
      Superpose(chk, x');
      var z := PolymodFrom(chk, Zeros(|x'|));
      assert Zeros(|x|)[..|x'|] == Zeros(|x'|);
      WordOfZero();
      XorZero(Word(v));
      AbsorbLinear(z, Pack(x'), 0, Word(v));
      PackLow(x');
      AbsorbLow(Pack(x'), Word(v));
    }
  }

  lemma ShiftInjective(z: bv32, v: bv32, z': bv32, v': bv32)
    requires z < 0x2000000 && z' < 0x2000000 && v < 32 && v' < 32
    requires Xor(Shift(z), v) == Xor(Shift(z'), v')
    ensures z == z' && v == v'
  {
  }

  lemma {:induction false} PackInjective(x: seq<Symbol>, y: seq<Symbol>)
    requires |x| == |y| <= 6 && Pack(x) == Pack(y)
    ensures x == y
  {
    hide Xor, Shift, Word;
    if x != [] {
      var x', v := x[..|x| - 1], x[|x| - 1];
      var y', w := y[..|y| - 1], y[|y| - 1];
      PackLow(x');
      PackLow(y');
      WordFits(v);
      WordFits(w);
      ShiftInjective(Pack(x'), Word(v), Pack(y'), Word(w));
      PackInjective(x', y');
      WordInjective(v, w);
      assert x == x' + [v] && y == y' + [w];
    }
  }

  lemma {:induction false} TailInjective(c: bv32, d: bv32, tail: seq<Symbol>)
    requires Fits(c) && Fits(d)
    requires PolymodFrom(c, tail) == PolymodFrom(d, tail)
    ensures c == d
  {
    hide Absorb, Word, Fits;
    if tail != [] {
      var init := tail[..|tail| - 1];
      StateBound(c, init);
      StateBound(d, init);
      AbsorbInjective(PolymodFrom(c, init), PolymodFrom(d, init), Word(tail[|tail| - 1]));
      TailInjective(c, d, init);
    }
  }

  lemma OneFits()
    ensures Fits(1)
  {
  }

  /**
   * Burst errors: two sequences of any length that agree outside a window of at most six
   * consecutive symbols have the same checksum only if they are equal.
   */
  lemma BurstDetected(head: seq<Symbol>, x: seq<Symbol>, y: seq<Symbol>, tail: seq<Symbol>)
    requires |x| == |y| <= 6
    requires PolymodFrom(1, head + x + tail) == PolymodFrom(1, head + y + tail)
    ensures x == y
  {
    hide Xor, Absorb, Word, Fits, Pack, PolymodFrom;
    OneFits();
    Append(1, head + x, tail);
    Append(1, head + y, tail);
    StateBound(1, head + x);
    StateBound(1, head + y);
    TailInjective(PolymodFrom(1, head + x), PolymodFrom(1, head + y), tail);
    Append(1, head, x);
    Append(1, head, y);
    var c := PolymodFrom(1, head);
    Superpose(c, x);
    Superpose(c, y);
    XorCancel(PolymodFrom(c, Zeros(|x|)), Pack(x), Pack(y));
    PackInjective(x, y);
  }

  // ---------------------------------------------------------------------------
  // The emitted checksum
  // ---------------------------------------------------------------------------

  function Slice(pm: bv32, shift: nat): bv32
    requires shift <= 25
  {
    (pm >> shift) & 31
  }

  lemma SliceFits(pm: bv32, shift: nat)
    requires shift <= 25
    ensures Slice(pm, shift) < 32 && Slice(pm, shift) as nat < 32
    ensures Word(Slice(pm, shift) as nat) == Slice(pm, shift)
  {
    MaskFits(pm >> shift);
  }

  lemma MaskFits(x: bv32)
    ensures x & 31 < 32 && (x & 31) as nat < 32
    ensures Word((x & 31) as nat) == x & 31
  {
    Narrow(x & 31);
  }

  lemma Narrow(b: bv32)
    requires b < 32
    ensures b as nat < 32 && ((b as nat) as bv5) as bv32 == b
  {
  }

  function Digit(pm: bv32, shift: nat): Symbol
    requires shift <= 25
  {
    SliceFits(pm, shift);
    Slice(pm, shift) as nat
  }

  function ChecksumOf(pm: bv32): seq<Symbol> {
    seq(6, i requires 0 <= i < 6 => Digit(pm, 5 * (5 - i)))
  }

  function Checksum(values: seq<Symbol>): seq<Symbol> {
    ChecksumOf(Xor(PolymodFrom(1, values + Zeros(6)), 1))
  }

  /** Moving a word up by a symbol again brings back all but the symbol that was dropped. */
  lemma Recompose(x: bv32)
    ensures Xor(Shift(x >> 5), x & 31) == x
  {
  }

  lemma FirstStep(pm: bv32)
    requires Fits(pm)
    ensures Xor(Shift(0), Slice(pm, 25)) == pm >> 25
  {
    hide Xor, Slice;
    TopSlice(pm);
    XorZero(pm >> 25);
    assert Shift(0) == 0;
  }

  lemma TopSlice(pm: bv32)
    requires Fits(pm)
    ensures Slice(pm, 25) == pm >> 25
  {
    TopIsSymbol(pm);
    MaskSymbol(pm >> 25);
  }

  lemma TopIsSymbol(pm: bv32)
    requires Fits(pm)
    ensures pm >> 25 < 32
  {
  }

  lemma MaskSymbol(x: bv32)
    requires x < 32
    ensures x & 31 == x
  {
  }

  lemma Step20(pm: bv32)
    ensures Xor(Shift(pm >> 25), Slice(pm, 20)) == pm >> 20
  {
    hide Xor, Shift;
    assert (pm >> 20) >> 5 == pm >> 25;
    Recompose(pm >> 20);
  }

  lemma Step15(pm: bv32)
    ensures Xor(Shift(pm >> 20), Slice(pm, 15)) == pm >> 15
  {
    hide Xor, Shift;
    assert (pm >> 15) >> 5 == pm >> 20;
    Recompose(pm >> 15);
  }

  lemma Step10(pm: bv32)
    ensures Xor(Shift(pm >> 15), Slice(pm, 10)) == pm >> 10
  {
    hide Xor, Shift;
    assert (pm >> 10) >> 5 == pm >> 15;
    Recompose(pm >> 10);
  }

  lemma Step5(pm: bv32)
    ensures Xor(Shift(pm >> 10), Slice(pm, 5)) == pm >> 5
  {
    hide Xor, Shift;
    assert (pm >> 5) >> 5 == pm >> 10;
    Recompose(pm >> 5);
  }

  lemma Step0(pm: bv32)
    ensures Xor(Shift(pm >> 5), Slice(pm, 0)) == pm
  {
    hide Xor, Shift;
    assert pm >> 0 == pm;
    Recompose(pm);
  }

  /** Taking the slices in from the top rebuilds the word, one symbol at a time. */
  lemma Assemble(pm: bv32)
    requires Fits(pm)
    ensures var p1 := Xor(Shift(0), Slice(pm, 25));
            var p2 := Xor(Shift(p1), Slice(pm, 20));
            var p3 := Xor(Shift(p2), Slice(pm, 15));
            var p4 := Xor(Shift(p3), Slice(pm, 10));
            var p5 := Xor(Shift(p4), Slice(pm, 5));
            Xor(Shift(p5), Slice(pm, 0)) == pm
  {
    hide Xor, Shift, Slice;
    FirstStep(pm);
    Step20(pm);
    Step15(pm);
    Step10(pm);
    Step5(pm);
    Step0(pm);
  }

  lemma WordOfDigit(pm: bv32, shift: nat)
    requires shift <= 25
    ensures Word(Digit(pm, shift)) == Slice(pm, shift)
  {
    hide Slice, Word;
    SliceFits(pm, shift);
  }

  lemma PackChecksum(pm: bv32)
    requires Fits(pm)
    ensures Pack(ChecksumOf(pm)) == pm
  {
    hide Fits, Xor, Shift, Word, Digit, Slice;
    var c := ChecksumOf(pm);
    forall i | 0 <= i < 6 ensures Word(c[i]) == Slice(pm, 5 * (5 - i)) {
      WordOfDigit(pm, 5 * (5 - i));
    }
    assert c[..6] == c && c[..5][..4] == c[..4] && c[..4][..3] == c[..3] && c[..3][..2] == c[..2]
        && c[..2][..1] == c[..1] && c[..1][..0] == [];
    assert Pack(c[..1]) == Xor(Shift(0), Slice(pm, 25));
    assert Pack(c[..2]) == Xor(Shift(Pack(c[..1])), Slice(pm, 20));
    assert Pack(c[..3]) == Xor(Shift(Pack(c[..2])), Slice(pm, 15));
    assert Pack(c[..4]) == Xor(Shift(Pack(c[..3])), Slice(pm, 10));
    assert Pack(c[..5]) == Xor(Shift(Pack(c[..4])), Slice(pm, 5));
    assert Pack(c) == Xor(Shift(Pack(c[..5])), Slice(pm, 0));
    Assemble(pm);
  }

  /** The six symbols the encoder appends bring the register to the constant the standard asks for. */
  lemma ChecksumVerifies(values: seq<Symbol>)
    ensures |Checksum(values)| == 6 && PolymodFrom(1, values + Checksum(values)) == 1
  {
    hide Fits, Xor, Pack, PolymodFrom, Digit;
    var zero := PolymodFrom(1, values + Zeros(6));
    OneFits();
    StateBound(1, values + Zeros(6));
    XorFits(zero, 1);
    Append(1, values, Zeros(6));
    Append(1, values, Checksum(values));
    Superpose(PolymodFrom(1, values), Checksum(values));
    PackChecksum(Xor(zero, 1));
    XorTwice(zero, 1);
  }
}
