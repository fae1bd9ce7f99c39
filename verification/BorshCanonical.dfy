/**
 * Writing what was read. The reader takes any non-zero option tag for "present", an option of an
 * absent value for an absent one, and a later variant that repeats an earlier name; exactly these
 * make it accept bytes the writer would not produce.
 */
module BorshCanonical {
  import opened Options
  import opened Bytes
  import opened Radix
  import opened BorshSchema
  import opened BorshRoundTrip

  ghost predicate Canonical(c: Codec, depth: nat, t: FieldType, b: seq<Byte>)
    decreases depth, t, 1, 0
  {
    match t
    case TTuple(items) => items == [] || CanonicalAll(c, depth, items, b)
    case TArray(item) =>
      var n := ParseNum(4, b);
      n.Some? ==> CanonicalEach(c, depth, item, n.value.value, n.value.rest)
    case TOption(item) =>
      var tag := ParseNum(1, b);
      tag.Some? && tag.value.value != 0 ==>
        && tag.value.value == 1
        && Canonical(c, depth, item, tag.value.rest)
        && (Parse(c, depth, item, tag.value.rest).Some? ==> !Parse(c, depth, item, tag.value.rest).value.value.VNone?)
    case TClass(name) => depth > 0 ==> CanonicalClass(c, depth - 1, name, b)
    case _ => true
  }

  ghost predicate CanonicalAll(c: Codec, depth: nat, ts: seq<FieldType>, b: seq<Byte>)
    decreases depth, ts, 0, 0
  {
    ts != [] ==>
      var x := Parse(c, depth, ts[0], b);
      x.Some? ==> Canonical(c, depth, ts[0], b) && CanonicalAll(c, depth, ts[1..], x.value.rest)
  }

  ghost predicate CanonicalEach(c: Codec, depth: nat, t: FieldType, n: nat, b: seq<Byte>)
    decreases depth, t, 2, n
  {
    n != 0 ==>
      var x := Parse(c, depth, t, b);
      x.Some? ==> Canonical(c, depth, t, b) && CanonicalEach(c, depth, t, n - 1, x.value.rest)
  }

  ghost predicate CanonicalClass(c: Codec, depth: nat, name: string, b: seq<Byte>)
    decreases depth
  {
    name in c.schema ==>
      match c.schema[name]
      case StructOf(fields) => CanonicalAll(c, depth, fields, b)
      case EnumOf(variants) =>
        var i := ParseNum(1, b);
        i.Some? && i.value.value < |variants| ==>
          && FindVariant(variants, variants[i.value.value].0) == i.value.value
          && Canonical(c, depth, variants[i.value.value].1, i.value.rest)
  }

  // ---------------------------------------------------------------------------
  // What was read is not nested deeper than allowed
  // ---------------------------------------------------------------------------

  lemma {:induction false} ParsedNesting(c: Codec, depth: nat, t: FieldType, b: seq<Byte>)
    requires Parse(c, depth, t, b).Some?
    ensures Nesting(Parse(c, depth, t, b).value.value) <= depth
    decreases depth, t, 1, 0
  {
    match t
    case TTuple(items) =>
      if items != [] {
        AllParsedNesting(c, depth, items, b);
      }
    case TArray(item) =>
      var n := ParseNum(4, b).value;
      EachParsedNesting(c, depth, item, n.value, n.rest);
    case TOption(item) =>
      var tag := ParseNum(1, b).value;
      if tag.value != 0 {
        ParsedNesting(c, depth, item, tag.rest);
      }
    case TClass(name) =>
      match c.schema[name] {
        case StructOf(fields) => AllParsedNesting(c, depth - 1, fields, b);
        case EnumOf(variants) =>
          var i := ParseNum(1, b).value;
          ParsedNesting(c, depth - 1, variants[i.value].1, i.rest);
      }
    case _ =>
  }

  lemma {:induction false} AllParsedNesting(c: Codec, depth: nat, ts: seq<FieldType>, b: seq<Byte>)
    requires ParseAll(c, depth, ts, b).Some?
    ensures NestingOf(ParseAll(c, depth, ts, b).value.value) <= depth
    decreases depth, ts, 0, 0
  {
    if ts != [] {
      var x := Parse(c, depth, ts[0], b).value;
      ParsedNesting(c, depth, ts[0], b);
      AllParsedNesting(c, depth, ts[1..], x.rest);
      assert ParseAll(c, depth, ts, b).value.value[1..] == ParseAll(c, depth, ts[1..], x.rest).value.value;
    }
  }

  lemma {:induction false} EachParsedNesting(c: Codec, depth: nat, t: FieldType, n: nat, b: seq<Byte>)
    requires ParseEach(c, depth, t, n, b).Some?
    ensures NestingOf(ParseEach(c, depth, t, n, b).value.value) <= depth
    decreases depth, t, 2, n
  {
    if n != 0 {
      var x := Parse(c, depth, t, b).value;
      ParsedNesting(c, depth, t, b);
      EachParsedNesting(c, depth, t, n - 1, x.rest);
      assert ParseEach(c, depth, t, n, b).value.value[1..] == ParseEach(c, depth, t, n - 1, x.rest).value.value;
    }
  }

  // ---------------------------------------------------------------------------
  // Writing what was read
  // ---------------------------------------------------------------------------

  /** The written form, followed by what was left, is the input. */
  ghost predicate Rewrites(s: Option<seq<Byte>>, rest: seq<Byte>, b: seq<Byte>) {
    s.Some? && s.value + rest == b
  }

  lemma TakeSplits(n: nat, b: seq<Byte>)
    requires Take(n, b).Some?
    ensures Take(n, b).value.value + Take(n, b).value.rest == b
  {
  }

  lemma NumRewrites(width: nat, b: seq<Byte>)
    requires ParseNum(width, b).Some?
    ensures Rewrites(SerNum(ParseNum(width, b).value.value, width), ParseNum(width, b).value.rest, b)
  {
    hide Pow, LeBytes, LeValue;
    var r := Take(width, b).value;
    LeValueBelow(r.value);
    LeBytesOfValue(r.value);
    TakeSplits(width, b);
  }

  /** A written head followed by more: the head alone decides where it ends. */
  lemma SplitRewrites(head: seq<Byte>, tail: Option<seq<Byte>>, rest: seq<Byte>, middle: seq<Byte>, b: seq<Byte>)
    requires head + middle == b
    ensures Rewrites(Join(Some(head), tail), rest, b) <==> Rewrites(tail, rest, middle)
  {
    if tail.Some? {
      assert head + tail.value + rest == head + (tail.value + rest);
      assert b[|head|..] == middle;
      assert (head + (tail.value + rest))[|head|..] == tail.value + rest;
    }
  }

  lemma {:induction false} FieldRewrites(c: Codec, depth: nat, t: FieldType, b: seq<Byte>)
    requires Parse(c, depth, t, b).Some?
    ensures var r := Parse(c, depth, t, b).value;
            Rewrites(Ser(c, r.value, t), r.rest, b) <==> Canonical(c, depth, t, b)
    decreases depth, t, 1, 0
  {
    var r := Parse(c, depth, t, b).value;
    match t
    case TTuple(items) =>
      if items == [] {
        assert [] + b == b;
      } else {
        AllRewrites(c, depth, items, b);
      }
    case TBool => NumRewrites(1, b);
    case TUint(width) => NumRewrites(width, b);
    case TString =>
      var n := ParseNum(4, b).value;
      NumRewrites(4, b);
      TakeSplits(n.value, n.rest);
      SplitRewrites(SerNum(n.value, 4).value, Some(r.value.utf8), r.rest, n.rest, b);
    case TFixed(len) => TakeSplits(len, b);
    case TArray(item) =>
      var n := ParseNum(4, b).value;
      NumRewrites(4, b);
      EachRewrites(c, depth, item, n.value, n.rest);
      SplitRewrites(SerNum(n.value, 4).value, SerEach(c, r.value.elems, item), r.rest, n.rest, b);
    case TOption(item) => OptionRewrites(c, depth, item, b);
    case TClass(name) => ClassRewrites(c, depth - 1, name, b);
    case TUnsupported =>
  }

  lemma {:induction false} OptionRewrites(c: Codec, depth: nat, item: FieldType, b: seq<Byte>)
    requires Parse(c, depth, TOption(item), b).Some?
    ensures var r := Parse(c, depth, TOption(item), b).value;
            Rewrites(Ser(c, r.value, TOption(item)), r.rest, b) <==> Canonical(c, depth, TOption(item), b)
    decreases depth, item, 3, 0
  {
    var r := Parse(c, depth, TOption(item), b).value;
    var tag := ParseNum(1, b).value;
    NumRewrites(1, b);
    if tag.value != 0 {
      FieldRewrites(c, depth, item, tag.rest);
      TagByte(b);
      if tag.value == 1 {
        SplitRewrites(SerNum(1, 1).value, Ser(c, r.value, item), r.rest, tag.rest, b);
      }
    }
  }

  /** A one-byte number is the first byte, and different ones are written differently. */
  lemma TagByte(b: seq<Byte>)
    requires b != []
    ensures ParseNum(1, b) == Some(Parsed(b[0], b[1..]))
    ensures SerNum(0, 1) == Some([0]) && SerNum(1, 1) == Some([1])
  {
    assert Take(1, b).value.value == [b[0]];
    assert LeValue([b[0]]) == b[0] + 256 * LeValue([]);
    OneByte(0);
    OneByte(1);
  }

  lemma {:induction false} AllRewrites(c: Codec, depth: nat, ts: seq<FieldType>, b: seq<Byte>)
    requires ParseAll(c, depth, ts, b).Some?
    ensures var r := ParseAll(c, depth, ts, b).value;
            Rewrites(SerAll(c, r.value, ts), r.rest, b) <==> CanonicalAll(c, depth, ts, b)
    decreases depth, ts, 0, 0
  {
    if ts == [] {
      assert [] + b == b;
    } else {
      var r := ParseAll(c, depth, ts, b).value;
      var x := Parse(c, depth, ts[0], b).value;
      FieldRewrites(c, depth, ts[0], b);
      AllRewrites(c, depth, ts[1..], x.rest);
      assert r.value[1..] == ParseAll(c, depth, ts[1..], x.rest).value.value;
      HeadRewrites(c, depth, ts[0], SerAll(c, r.value[1..], ts[1..]), r.rest, b);
    }
  }

  lemma {:induction false} EachRewrites(c: Codec, depth: nat, t: FieldType, n: nat, b: seq<Byte>)
    requires ParseEach(c, depth, t, n, b).Some?
    ensures var r := ParseEach(c, depth, t, n, b).value;
            Rewrites(SerEach(c, r.value, t), r.rest, b) <==> CanonicalEach(c, depth, t, n, b)
    decreases depth, t, 2, n
  {
    if n == 0 {
      assert [] + b == b;
    } else {
      var r := ParseEach(c, depth, t, n, b).value;
      var x := Parse(c, depth, t, b).value;
      FieldRewrites(c, depth, t, b);
      EachRewrites(c, depth, t, n - 1, x.rest);
      assert r.value[1..] == ParseEach(c, depth, t, n - 1, x.rest).value.value;
      HeadRewrites(c, depth, t, SerEach(c, r.value[1..], t), r.rest, b);
    }
  }

  /** Several values rewrite to the input exactly when the first one and the others do. */
  lemma HeadRewrites(c: Codec, depth: nat, t: FieldType, others: Option<seq<Byte>>, rest: seq<Byte>, b: seq<Byte>)
    requires Parse(c, depth, t, b).Some?
    ensures var x := Parse(c, depth, t, b).value;
            Rewrites(Join(Ser(c, x.value, t), others), rest, b)
            <==> Rewrites(Ser(c, x.value, t), x.rest, b) && Rewrites(others, rest, x.rest)
  {
    var x := Parse(c, depth, t, b).value;
    var s := Ser(c, x.value, t);
    if Rewrites(s, x.rest, b) {
      SplitRewrites(s.value, others, rest, x.rest, b);
    } else if Rewrites(Join(s, others), rest, b) {
      // reading the rewritten input from the front ends where the first value was written to
      assert b == s.value + (others.value + rest);
      ParsedNesting(c, depth, t, b);
      FieldBack(c, x.value, t, depth, others.value + rest);
      assert false;
    }
  }

  lemma {:induction false} ClassRewrites(c: Codec, depth: nat, name: string, b: seq<Byte>)
    requires ParseClass(c, depth, name, b).Some?
    ensures var r := ParseClass(c, depth, name, b).value;
            Rewrites(SerClass(c, r.value, name), r.rest, b) <==> CanonicalClass(c, depth, name, b)
    decreases depth
  {
    match c.schema[name]
    case StructOf(fields) => AllRewrites(c, depth, fields, b);
    case EnumOf(variants) =>
      var r := ParseClass(c, depth, name, b).value;
      var i := ParseNum(1, b).value;
      var (variant, t) := variants[i.value];
      var first := FindVariant(variants, variant);
      NumRewrites(1, b);
      if first == i.value {
        FieldRewrites(c, depth, t, i.rest);
        SplitRewrites(SerNum(i.value, 1).value, Ser(c, r.value.payload, t), r.rest, i.rest, b);
      } else {
        EarlierVariant(first, i.value, b, Ser(c, r.value.payload, variants[first].1), r.rest);
      }
  }

  /** An index byte other than the one read does not lead back to the input. */
  lemma EarlierVariant(first: nat, index: nat, b: seq<Byte>, body: Option<seq<Byte>>, rest: seq<Byte>)
    requires ParseNum(1, b).Some? && ParseNum(1, b).value.value == index != first
    ensures !Rewrites(Join(SerNum(first, 1), body), rest, b)
  {
    if Rewrites(Join(SerNum(first, 1), body), rest, b) {
      assert b == SerNum(first, 1).value + (body.value + rest);
      NumRoundTrip(first, 1, body.value + rest);
      assert false;
    }
  }

  /**
   * For every schema and all bytes that can be read: writing the value again gives the bytes that
   * were read exactly when they are canonical.
   */
  lemma WriteAfterRead(c: Codec, depth: nat, t: FieldType, b: seq<Byte>)
    requires Deserialize(c, depth, t, b).Some?
    ensures Ser(c, Deserialize(c, depth, t, b).value, t) == Some(b) <==> Canonical(c, depth, t, b)
  {
    FieldRewrites(c, depth, t, b);
    var s := Ser(c, Deserialize(c, depth, t, b).value, t);
    if s.Some? {
      assert s.value + [] == s.value;
    }
  }

  /** An option tag of two reads like one. */
  lemma LooseTag(c: Codec)
    ensures Deserialize(c, 0, TOption(TBool), [2, 1]) == Some(VBool(true))
    ensures Ser(c, VBool(true), TOption(TBool)) == Some([1, 1])
  {
    TagByte([2, 1]);
    TagByte([1]);
    assert [2, 1][1..] == [1] && [1][1..] == [];
    assert Parse(c, 0, TBool, [1]) == Some(Parsed(VBool(true), []));
    assert Ser(c, VBool(true), TBool) == Some([1]);
    var one: seq<Byte> := [1];
    assert Ser(c, VBool(true), TOption(TBool)) == Some(one + one);
    assert one + one == [1, 1];
  }
}
