/** What reading and writing have to do with each other, for every schema. */
module BorshRoundTrip {
  import opened Options
  import opened Bytes
  import opened Radix
  import opened BorshSchema

  // ---------------------------------------------------------------------------
  // The shape of what is read, and nesting
  // ---------------------------------------------------------------------------

  /**
   * What reading returns for a written value: None at an empty tuple, whatever stood there; a tuple
   * at a tuple type and a list at a list type, whatever was iterated over; a number for a bool.
   */
  ghost function Back(c: Codec, v: Value, t: FieldType): Value
    decreases Size(v), t, 1, 0
  {
    match t
    case TTuple(items) =>
      if items == [] then VNone
      else
        var elems := Items(c, v);
        if elems.Some? && |elems.value| == |items| then VTuple(BackAll(c, elems.value, items)) else v
    case TUint(_) => if AsInt(v).Some? then VInt(AsInt(v).value) else v
    case TArray(item) =>
      var elems := Items(c, v);
      if elems.Some? then VList(BackEach(c, elems.value, item)) else v
    case TOption(item) => if v.VNone? then v else Back(c, v, item)
    case TClass(name) => BackClass(c, v, name)
    case _ => v
  }

  ghost function BackAll(c: Codec, vs: seq<Value>, ts: seq<FieldType>): (r: seq<Value>)
    requires |vs| == |ts|
    ensures |r| == |vs|
    decreases SizeOf(vs), ts, 0, 0
  {
    if vs == [] then [] else [Back(c, vs[0], ts[0])] + BackAll(c, vs[1..], ts[1..])
  }

  ghost function BackEach(c: Codec, vs: seq<Value>, t: FieldType): (r: seq<Value>)
    ensures |r| == |vs|
    decreases SizeOf(vs), t, 2, |vs|
  {
    if vs == [] then [] else [Back(c, vs[0], t)] + BackEach(c, vs[1..], t)
  }

  ghost function BackClass(c: Codec, v: Value, name: string): Value
    decreases Size(v), TClass(name), 0, 0
  {
    if name !in c.schema then v
    else match c.schema[name]
      case StructOf(fields) =>
        if v.VStruct? && |v.fields| == |fields| then v.(fields := BackAll(c, v.fields, fields)) else v
      case EnumOf(variants) =>
        if v.VEnum? then
          var i := FindVariant(variants, v.variant);
          if i < |variants| then v.(payload := Back(c, v.payload, variants[i].1)) else v
        else v
  }

  /** None at every empty tuple, tuples at tuple types, lists at list types, and no bool at a number type. */
  ghost predicate ReadShape(c: Codec, v: Value, t: FieldType)
    decreases Size(v), t, 1, 0
  {
    match t
    case TTuple(items) =>
      if items == [] then v.VNone?
      else
        var elems := Items(c, v);
        elems.Some? && |elems.value| == |items| ==> v.VTuple? && ShapeAll(c, elems.value, items)
    case TUint(_) => !v.VBool?
    case TArray(item) =>
      var elems := Items(c, v);
      elems.Some? ==> v.VList? && ShapeEach(c, elems.value, item)
    case TOption(item) => v.VNone? || ReadShape(c, v, item)
    case TClass(name) => ShapeClass(c, v, name)
    case _ => true
  }

  ghost predicate ShapeAll(c: Codec, vs: seq<Value>, ts: seq<FieldType>)
    requires |vs| == |ts|
    decreases SizeOf(vs), ts, 0, 0
  {
    vs != [] ==> ReadShape(c, vs[0], ts[0]) && ShapeAll(c, vs[1..], ts[1..])
  }

  ghost predicate ShapeEach(c: Codec, vs: seq<Value>, t: FieldType)
    decreases SizeOf(vs), t, 2, |vs|
  {
    vs != [] ==> ReadShape(c, vs[0], t) && ShapeEach(c, vs[1..], t)
  }

  ghost predicate ShapeClass(c: Codec, v: Value, name: string)
    decreases Size(v), TClass(name), 0, 0
  {
    name in c.schema ==>
      match c.schema[name]
      case StructOf(fields) => v.VStruct? && |v.fields| == |fields| ==> ShapeAll(c, v.fields, fields)
      case EnumOf(variants) =>
        v.VEnum? ==>
          var i := FindVariant(variants, v.variant);
          i < |variants| ==> ReadShape(c, v.payload, variants[i].1)
  }

  lemma {:induction false} BackIsSame(c: Codec, v: Value, t: FieldType)
    ensures Back(c, v, t) == v <==> ReadShape(c, v, t)
    decreases Size(v), t, 1, 0
  {
    match t
    case TTuple(items) =>
      if items != [] && v.VTuple? && |v.elems| == |items| {
        AllBackIsSame(c, v.elems, items);
      }
    case TArray(item) =>
      if v.VList? {
        EachBackIsSame(c, v.elems, item);
      }
    case TOption(item) =>
      if !v.VNone? {
        BackIsSame(c, v, item);
      }
    case TClass(name) =>
      if name in c.schema {
        match c.schema[name]
        case StructOf(fields) =>
          if v.VStruct? && |v.fields| == |fields| {
            AllBackIsSame(c, v.fields, fields);
          }
        case EnumOf(variants) =>
          if v.VEnum? && FindVariant(variants, v.variant) < |variants| {
            BackIsSame(c, v.payload, variants[FindVariant(variants, v.variant)].1);
          }
      }
    case _ =>
  }

  lemma {:induction false} AllBackIsSame(c: Codec, vs: seq<Value>, ts: seq<FieldType>)
    requires |vs| == |ts|
    ensures BackAll(c, vs, ts) == vs <==> ShapeAll(c, vs, ts)
    decreases SizeOf(vs), ts, 0, 0
  {
    if vs != [] {
      BackIsSame(c, vs[0], ts[0]);
      AllBackIsSame(c, vs[1..], ts[1..]);
      ConsEqual(Back(c, vs[0], ts[0]), BackAll(c, vs[1..], ts[1..]), vs);
    }
  }

  lemma {:induction false} EachBackIsSame(c: Codec, vs: seq<Value>, t: FieldType)
    ensures BackEach(c, vs, t) == vs <==> ShapeEach(c, vs, t)
    decreases SizeOf(vs), t, 2, |vs|
  {
    if vs != [] {
      BackIsSame(c, vs[0], t);
      EachBackIsSame(c, vs[1..], t);
      ConsEqual(Back(c, vs[0], t), BackEach(c, vs[1..], t), vs);
    }
  }

  lemma ConsEqual<T>(x: T, xs: seq<T>, all: seq<T>)
    requires all != []
    ensures [x] + xs == all <==> x == all[0] && xs == all[1..]
  {
    if [x] + xs == all {
      assert ([x] + xs)[1..] == xs;
    }
  }

  /** How many objects are open inside each other at the deepest point. */
  ghost function Nesting(v: Value): nat {
    match v
    case VTuple(elems) => NestingOf(elems)
    case VList(elems) => NestingOf(elems)
    case VStruct(_, fields) => 1 + NestingOf(fields)
    case VEnum(_, _, payload) => 1 + Nesting(payload)
    case _ => 0
  }

  ghost function NestingOf(vs: seq<Value>): nat {
    if vs == [] then 0
    else
      var a, b := Nesting(vs[0]), NestingOf(vs[1..]);
      if a > b then a else b
  }

  lemma {:induction false} IntsNesting(b: seq<Byte>)
    ensures NestingOf(Ints(b)) == 0
  {
    if b != [] {
      IntsNesting(b[1..]);
      assert Ints(b)[1..] == Ints(b[1..]);
    }
  }

  lemma {:induction false} StrsNesting(chars: seq<seq<Byte>>)
    ensures NestingOf(Strs(chars)) == 0
  {
    if chars != [] {
      StrsNesting(chars[1..]);
      assert Strs(chars)[1..] == Strs(chars[1..]);
    }
  }

  lemma ItemsNesting(c: Codec, v: Value)
    requires Items(c, v).Some?
    ensures NestingOf(Items(c, v).value) <= Nesting(v)
  {
    match v
    case VBytes(b) => IntsNesting(b);
    case VByteArray(b) => IntsNesting(b);
    case VStr(utf8) => StrsNesting(c.chars(utf8));
    case _ =>
  }

  // ---------------------------------------------------------------------------
  // Reading what was written
  // ---------------------------------------------------------------------------

  lemma TakeFront(b: seq<Byte>, rest: seq<Byte>)
    ensures Take(|b|, b + rest) == Some(Parsed(b, rest))
  {
    assert (b + rest)[..|b|] == b && (b + rest)[|b|..] == rest;
  }

  lemma SmallRemainder(v: nat, m: nat)
    requires v < m
    ensures v % m == v
  {
  }

  lemma NumRoundTrip(v: nat, width: nat, rest: seq<Byte>)
    requires SerNum(v, width).Some?
    ensures ParseNum(width, SerNum(v, width).value + rest) == Some(Parsed(v, rest))
  {
    hide Pow, LeBytes, LeValue, Take;
    LeRoundTrip(v, width);
    SmallRemainder(v, Pow(256, width));
    TakeFront(LeBytes(v, width), rest);
  }

  lemma {:induction false} FieldBack(c: Codec, v: Value, t: FieldType, depth: nat, rest: seq<Byte>)
    requires Ser(c, v, t).Some? && Nesting(v) <= depth
    ensures Parse(c, depth, t, Ser(c, v, t).value + rest) == Some(Parsed(Back(c, v, t), rest))
    decreases Size(v), t, 1, 0
  {
    var b := Ser(c, v, t).value;
    match t
    case TTuple(items) =>
      if items == [] {
        assert b + rest == rest;
      } else {
        ItemsNesting(c, v);
        AllBack(c, Items(c, v).value, items, depth, rest);
      }
    case TBool => NumRoundTrip(if v.b then 1 else 0, 1, rest);
    case TUint(width) => NumRoundTrip(AsInt(v).value, width, rest);
    case TString =>
      var n := SerNum(|v.utf8|, 4).value;
      assert b + rest == n + (v.utf8 + rest);
      NumRoundTrip(|v.utf8|, 4, v.utf8 + rest);
      TakeFront(v.utf8, rest);
    case TFixed(len) => TakeFront(v.bytes, rest);
    case TArray(item) =>
      var elems := Items(c, v).value;
      var n, body := SerNum(|elems|, 4).value, SerEach(c, elems, item).value;
      assert b + rest == n + (body + rest);
      NumRoundTrip(|elems|, 4, body + rest);
      ItemsNesting(c, v);
      EachBack(c, elems, item, depth, rest);
    case TOption(item) =>
      if v.VNone? {
        NumRoundTrip(0, 1, rest);
      } else {
        var tag, body := SerNum(1, 1).value, Ser(c, v, item).value;
        assert b + rest == tag + (body + rest);
        NumRoundTrip(1, 1, body + rest);
        FieldBack(c, v, item, depth, rest);
      }
    case TClass(name) => ClassBack(c, v, name, depth - 1, rest);
    case TUnsupported =>
  }

  lemma {:induction false} AllBack(c: Codec, vs: seq<Value>, ts: seq<FieldType>, depth: nat, rest: seq<Byte>)
    requires |vs| == |ts| && SerAll(c, vs, ts).Some? && NestingOf(vs) <= depth
    ensures ParseAll(c, depth, ts, SerAll(c, vs, ts).value + rest) == Some(Parsed(BackAll(c, vs, ts), rest))
    decreases SizeOf(vs), ts, 0, 0
  {
    hide Ser, Parse, Back;
    var b := SerAll(c, vs, ts).value;
    if vs == [] {
      assert b + rest == rest;
    } else {
      var first, others := Ser(c, vs[0], ts[0]).value, SerAll(c, vs[1..], ts[1..]).value;
      assert b + rest == first + (others + rest);
      FieldBack(c, vs[0], ts[0], depth, others + rest);
      AllBack(c, vs[1..], ts[1..], depth, rest);
    }
  }

  lemma {:induction false} EachBack(c: Codec, vs: seq<Value>, t: FieldType, depth: nat, rest: seq<Byte>)
    requires SerEach(c, vs, t).Some? && NestingOf(vs) <= depth
    ensures ParseEach(c, depth, t, |vs|, SerEach(c, vs, t).value + rest) == Some(Parsed(BackEach(c, vs, t), rest))
    decreases SizeOf(vs), t, 2, |vs|
  {
    hide Ser, Parse, Back;
    var b := SerEach(c, vs, t).value;
    if vs == [] {
      assert b + rest == rest;
    } else {
      var first, others := Ser(c, vs[0], t).value, SerEach(c, vs[1..], t).value;
      assert b + rest == first + (others + rest);
      FieldBack(c, vs[0], t, depth, others + rest);
      EachBack(c, vs[1..], t, depth, rest);
    }
  }

  lemma {:induction false} ClassBack(c: Codec, v: Value, name: string, depth: nat, rest: seq<Byte>)
    requires SerClass(c, v, name).Some? && Nesting(v) <= depth + 1
    ensures ParseClass(c, depth, name, SerClass(c, v, name).value + rest) == Some(Parsed(BackClass(c, v, name), rest))
    decreases Size(v), TClass(name), 0, 0
  {
    match c.schema[name]
    case StructOf(fields) => AllBack(c, v.fields, fields, depth, rest);
    case EnumOf(variants) =>
      var i := FindVariant(variants, v.variant);
      var tag, body := SerNum(i, 1).value, Ser(c, v.payload, variants[i].1).value;
      assert SerClass(c, v, name).value + rest == tag + (body + rest);
      NumRoundTrip(i, 1, body + rest);
      FieldBack(c, v.payload, variants[i].1, depth, rest);
  }

  /** `deserialize`: read one value and insist that nothing is left. */
  function Deserialize(c: Codec, depth: nat, t: FieldType, b: seq<Byte>): Option<Value> {
    var r := Parse(c, depth, t, b);
    if r.Some? && r.value.rest == [] then Some(r.value.value) else None
  }

  /**
   * For every schema, type and value that can be written: all written bytes are read, whatever
   * follows them is left alone, and the value comes back exactly when it has the shape of what is
   * read.
   */
  lemma RoundTrip(c: Codec, v: Value, t: FieldType, depth: nat, rest: seq<Byte>)
    requires Ser(c, v, t).Some? && Nesting(v) <= depth
    ensures var b := Ser(c, v, t).value;
            && Parse(c, depth, t, b + rest).Some? && Parse(c, depth, t, b + rest).value.rest == rest
            && (Parse(c, depth, t, b + rest).value.value == v <==> ReadShape(c, v, t))
            && (Deserialize(c, depth, t, b) == Some(v) <==> ReadShape(c, v, t))
  {
    FieldBack(c, v, t, depth, rest);
    FieldBack(c, v, t, depth, []);
    BackIsSame(c, v, t);
    assert Ser(c, v, t).value + [] == Ser(c, v, t).value;
  }

  /** A value at an empty-tuple position that is not None is lost. */
  lemma UnitValueIsLost(c: Codec)
    ensures Ser(c, VBool(true), TTuple([])) == Some([]) && Deserialize(c, 0, TTuple([]), []) == Some(VNone)
  {
  }

  /** Bytes, or a byte array, at a list of numbers share their encoding with the list, which is what comes back. */
  lemma BytesComeBackAsList(c: Codec, b: seq<Byte>, width: nat)
    requires Ser(c, VBytes(b), TArray(TUint(width))).Some?
    ensures var t, list := TArray(TUint(width)), VList(Ints(b));
            && Ser(c, VBytes(b), t) == Ser(c, VByteArray(b), t) == Ser(c, list, t)
            && Deserialize(c, 0, t, Ser(c, VBytes(b), t).value) == Some(list)
            && !ReadShape(c, VBytes(b), t) && ReadShape(c, list, t)
  {
    var t, list := TArray(TUint(width)), VList(Ints(b));
    IntsShape(c, b, width);
    IntsNesting(b);
    RoundTrip(c, list, t, 0, []);
  }

  lemma {:induction false} IntsShape(c: Codec, b: seq<Byte>, width: nat)
    ensures ShapeEach(c, Ints(b), TUint(width))
  {
    if b != [] {
      IntsShape(c, b[1..], width);
      assert Ints(b)[1..] == Ints(b[1..]);
    }
  }

  /**
   * No written value is the beginning of another one. Equal bytes mean that the same comes back,
   * and so equal values where both have the shape of what is read.
   */
  lemma UniquelyReadable(c: Codec, v: Value, w: Value, t: FieldType, more: seq<Byte>)
    requires Ser(c, v, t).Some? && Ser(c, w, t).Some?
    requires Ser(c, v, t).value + more == Ser(c, w, t).value
    ensures more == [] && Back(c, v, t) == Back(c, w, t)
    ensures ReadShape(c, v, t) && ReadShape(c, w, t) ==> v == w
  {
    var depth := Nesting(v) + Nesting(w);
    FieldBack(c, v, t, depth, more);
    FieldBack(c, w, t, depth, []);
    assert Ser(c, w, t).value + [] == Ser(c, w, t).value;
    BackIsSame(c, v, t);
    BackIsSame(c, w, t);
  }
}
