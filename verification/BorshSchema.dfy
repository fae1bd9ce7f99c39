/**
 * Schema-driven Borsh serialization of Python values.
 *
 * A Python string is its UTF-8 bytes; which byte strings are UTF-8 and how they fall into
 * characters are parameters. A failed assertion, a type error, a missing schema entry or an index
 * error is `None`. Objects hold exactly the attributes their schema names, in the order of the schema.
 */
module BorshSchema {
  import opened Options
  import opened Bytes
  import opened Radix

  datatype FieldType =
    | TTuple(items: seq<FieldType>)
    | TBool
    | TUint(width: nat)           // in bytes
    | TString
    | TFixed(len: nat)
    | TArray(item: FieldType)
    | TOption(item: FieldType)
    | TClass(name: string)
    | TUnsupported                // None or anything else the library rejects

  datatype ClassSchema =
    | StructOf(fields: seq<FieldType>)
    | EnumOf(variants: seq<(string, FieldType)>)

  datatype Value =
    | VNone
    | VBool(b: bool)
    | VInt(n: int)
    | VStr(utf8: seq<Byte>)
    | VBytes(bytes: seq<Byte>)
    | VByteArray(bytes: seq<Byte>)
    | VTuple(elems: seq<Value>)
    | VList(elems: seq<Value>)
    | VStruct(cls: string, fields: seq<Value>)
    | VEnum(cls: string, variant: string, payload: Value)

  datatype Codec = Codec(
    schema: map<string, ClassSchema>,
    utf8: seq<Byte> -> bool,
    chars: seq<Byte> -> seq<seq<Byte>>
  )

  // ---------------------------------------------------------------------------
  // Python iteration
  // ---------------------------------------------------------------------------

  /** How deep containers and objects are stacked. */
  ghost function Size(v: Value): nat {
    match v
    case VTuple(elems) => 1 + SizeOf(elems)
    case VList(elems) => 1 + SizeOf(elems)
    case VStruct(_, fields) => 1 + SizeOf(fields)
    case VEnum(_, _, payload) => 1 + Size(payload)
    case _ => 0
  }

  ghost function SizeOf(vs: seq<Value>): nat {
    if vs == [] then 0
    else
      var a, b := Size(vs[0]), SizeOf(vs[1..]);
      if a > b then a else b
  }

  function Ints(b: seq<Byte>): (r: seq<Value>)
    ensures |r| == |b| && SizeOf(r) == 0
  {
    if b == [] then [] else [VInt(b[0])] + Ints(b[1..])
  }

  function Strs(chars: seq<seq<Byte>>): (r: seq<Value>)
    ensures |r| == |chars| && SizeOf(r) == 0
  {
    if chars == [] then [] else [VStr(chars[0])] + Strs(chars[1..])
  }

  /** What `len` and a loop see of a value: bytes are numbers, a string is its characters. */
  function Items(c: Codec, v: Value): (r: Option<seq<Value>>)
    ensures r.Some? ==> SizeOf(r.value) < Size(v) || (SizeOf(r.value) == 0 == Size(v))
  {
    match v
    case VTuple(elems) => Some(elems)
    case VList(elems) => Some(elems)
    case VBytes(b) => Some(Ints(b))
    case VByteArray(b) => Some(Ints(b))
    case VStr(utf8) => Some(Strs(c.chars(utf8)))
    case _ => None
  }

  /** A bool is a number. */
  function AsInt(v: Value): Option<int> {
    match v
    case VInt(n) => Some(n)
    case VBool(b) => Some(if b then 1 else 0)
    case _ => None
  }

  // ---------------------------------------------------------------------------
  // Writing
  // ---------------------------------------------------------------------------

  function SerNum(v: int, width: nat): Option<seq<Byte>> {
    if 0 <= v < Pow(256, width) then Some(LeBytes(v, width)) else None
  }

  lemma OneByte(v: nat)
    ensures SerNum(v, 1) == if v < 256 then Some([v]) else None
  {
    assert Pow(256, 0) == 1 && Pow(256, 1) == 256 * Pow(256, 0);
    if v < 256 {
      var b: Byte := v;
      assert v % 256 == b && v / 256 == 0;
      assert LeBytes(v, 1) == [b] + LeBytes(0, 0) == [b];
    }
  }

  function FindVariant(variants: seq<(string, FieldType)>, name: string): (i: nat)
    ensures i <= |variants|
    ensures i < |variants| ==> variants[i].0 == name
    ensures forall j :: 0 <= j < i ==> variants[j].0 != name
  {
    if variants == [] || variants[0].0 == name then 0 else 1 + FindVariant(variants[1..], name)
  }

  function Ser(c: Codec, v: Value, t: FieldType): Option<seq<Byte>>
    decreases Size(v), t, 1, 0
  {
    match t
    case TTuple(items) =>
      if items == [] then Some([])
      else
        var elems := Items(c, v);
        if elems.Some? && |elems.value| == |items| then SerAll(c, elems.value, items) else None
    case TBool => if v.VBool? then SerNum(if v.b then 1 else 0, 1) else None
    case TUint(width) => if AsInt(v).Some? then SerNum(AsInt(v).value, width) else None
    case TString => if v.VStr? && c.utf8(v.utf8) then Join(SerNum(|v.utf8|, 4), Some(v.utf8)) else None
    case TFixed(len) => if v.VBytes? && |v.bytes| == len then Some(v.bytes) else None
    case TArray(item) =>
      var elems := Items(c, v);
      if elems.Some? then Join(SerNum(|elems.value|, 4), SerEach(c, elems.value, item)) else None
    case TOption(item) => if v.VNone? then SerNum(0, 1) else Join(SerNum(1, 1), Ser(c, v, item))
    case TClass(name) => SerClass(c, v, name)
    case TUnsupported => None
  }

  function SerAll(c: Codec, vs: seq<Value>, ts: seq<FieldType>): Option<seq<Byte>>
    requires |vs| == |ts|
    decreases SizeOf(vs), ts, 0, 0
  {
    if vs == [] then Some([]) else Join(Ser(c, vs[0], ts[0]), SerAll(c, vs[1..], ts[1..]))
  }

  function SerEach(c: Codec, vs: seq<Value>, t: FieldType): Option<seq<Byte>>
    decreases SizeOf(vs), t, 2, |vs|
  {
    if vs == [] then Some([]) else Join(Ser(c, vs[0], t), SerEach(c, vs[1..], t))
  }

  function SerClass(c: Codec, v: Value, name: string): Option<seq<Byte>>
    decreases Size(v), TClass(name), 0, 0
  {
    if name !in c.schema then None
    else match c.schema[name]
      case StructOf(fields) =>
        if v.VStruct? && v.cls == name && |v.fields| == |fields| then SerAll(c, v.fields, fields) else None
      case EnumOf(variants) =>
        if v.VEnum? && v.cls == name then
          var i := FindVariant(variants, v.variant);
          if i < |variants| then Join(SerNum(i, 1), Ser(c, v.payload, variants[i].1)) else None
        else None
  }

  // ---------------------------------------------------------------------------
  // Reading
  // ---------------------------------------------------------------------------

  datatype Parsed<+T> = Parsed(value: T, rest: seq<Byte>)

  function Take(n: nat, b: seq<Byte>): Option<Parsed<seq<Byte>>> {
    if n <= |b| then Some(Parsed(b[..n], b[n..])) else None
  }

  function ParseNum(width: nat, b: seq<Byte>): Option<Parsed<nat>> {
    var r := Take(width, b);
    if r.None? then None else Some(Parsed(LeValue(r.value.value), r.value.rest))
  }

  /** `depth` bounds how many objects may be open inside each other, as the interpreter's recursion limit does. */
  function Parse(c: Codec, depth: nat, t: FieldType, b: seq<Byte>): Option<Parsed<Value>>
    decreases depth, t, 1, 0
  {
    match t
    case TTuple(items) =>
      if items == [] then Some(Parsed(VNone, b))
      else
        var r := ParseAll(c, depth, items, b);
        if r.None? then None else Some(Parsed(VTuple(r.value.value), r.value.rest))
    case TBool =>
      var r := ParseNum(1, b);
      if r.None? || r.value.value > 1 then None else Some(Parsed(VBool(r.value.value == 1), r.value.rest))
    case TUint(width) =>
      var r := ParseNum(width, b);
      if r.None? then None else Some(Parsed(VInt(r.value.value), r.value.rest))
    case TString =>
      var n := ParseNum(4, b);
      if n.None? then None
      else
        var r := Take(n.value.value, n.value.rest);
        if r.None? || !c.utf8(r.value.value) then None else Some(Parsed(VStr(r.value.value), r.value.rest))
    case TFixed(len) =>
      var r := Take(len, b);
      if r.None? then None else Some(Parsed(VBytes(r.value.value), r.value.rest))
    case TArray(item) =>
      var n := ParseNum(4, b);
      if n.None? then None
      else
        var r := ParseEach(c, depth, item, n.value.value, n.value.rest);
        if r.None? then None else Some(Parsed(VList(r.value.value), r.value.rest))
    case TOption(item) =>
      var tag := ParseNum(1, b);
      if tag.None? then None
      else if tag.value.value == 0 then Some(Parsed(VNone, tag.value.rest))
      else Parse(c, depth, item, tag.value.rest)
    case TClass(name) => if depth == 0 then None else ParseClass(c, depth - 1, name, b)
    case TUnsupported => None
  }

  function ParseAll(c: Codec, depth: nat, ts: seq<FieldType>, b: seq<Byte>): (r: Option<Parsed<seq<Value>>>)
    ensures r.Some? ==> |r.value.value| == |ts|
    decreases depth, ts, 0, 0
  {
    if ts == [] then Some(Parsed([], b))
    else
      var x := Parse(c, depth, ts[0], b);
      if x.None? then None
      else
        var xs := ParseAll(c, depth, ts[1..], x.value.rest);
        if xs.None? then None else Some(Parsed([x.value.value] + xs.value.value, xs.value.rest))
  }

  function ParseEach(c: Codec, depth: nat, t: FieldType, n: nat, b: seq<Byte>): (r: Option<Parsed<seq<Value>>>)
    ensures r.Some? ==> |r.value.value| == n
    decreases depth, t, 2, n
  {
    if n == 0 then Some(Parsed([], b))
    else
      var x := Parse(c, depth, t, b);
      if x.None? then None
      else
        var xs := ParseEach(c, depth, t, n - 1, x.value.rest);
        if xs.None? then None else Some(Parsed([x.value.value] + xs.value.value, xs.value.rest))
  }

  /** The fields of an object, or the variant an index byte selects. */
  function ParseClass(c: Codec, depth: nat, name: string, b: seq<Byte>): Option<Parsed<Value>>
    decreases depth
  {
    if name !in c.schema then None
    else match c.schema[name]
      case StructOf(fields) =>
        var r := ParseAll(c, depth, fields, b);
        if r.None? then None else Some(Parsed(VStruct(name, r.value.value), r.value.rest))
      case EnumOf(variants) =>
        var i := ParseNum(1, b);
        if i.None? || i.value.value >= |variants| then None
        else
          var (variant, t) := variants[i.value.value];
          var r := Parse(c, depth, t, i.value.rest);
          if r.None? then None else Some(Parsed(VEnum(name, variant, r.value.value), r.value.rest))
  }
}
