/** The serializer object: a growing byte array when writing, an advancing offset when reading. */
module BinarySerializerObject {
  import opened Options
  import opened Bytes
  import opened Radix
  import opened BorshSchema
  import opened BorshRoundTrip

  /** What a writing method promises: it appends `s`, or fails having only appended. */
  ghost predicate Appended(before: seq<Byte>, after: seq<Byte>, s: Option<seq<Byte>>, ok: bool) {
    && ok == s.Some?
    && before <= after
    && (ok ==> after == before + s.value)
  }

  /** What a reading method promises: the outcome `p` of reading, and the offset behind what was read. */
  ghost predicate Advanced<T>(buffer: seq<Byte>, offset: nat, p: Option<Parsed<T>>, r: Option<T>) {
    && r.Some? == p.Some?
    && (r.Some? ==> r.value == p.value.value && offset <= |buffer| && buffer[offset..] == p.value.rest)
  }

  class BinarySerializer {
    var buffer: seq<Byte>
    var offset: nat
    const codec: Codec

    constructor (codec: Codec)
      ensures buffer == [] && offset == 0 && this.codec == codec
    {
      this.codec := codec;
      buffer := [];
      offset := 0;
    }

    // -------------------------------------------------------------------------
    // Writing
    // -------------------------------------------------------------------------

    method SerializeNum(value: int, width: nat) returns (ok: bool)
      modifies this
      ensures Appended(old(buffer), buffer, SerNum(value, width), ok) && offset == old(offset)
    {
      if value < 0 {
        return false;
      }
      var v: nat := value;
      for i := 0 to width
        invariant old(buffer) <= buffer && offset == old(offset)
        invariant LeBytes(value, width) == buffer[|old(buffer)|..] + LeBytes(v, width - i)
        invariant value < Pow(256, width) <==> v < Pow(256, width - i)
      {
        QuotientBound(v, width - i);
        buffer := buffer + [v % 256];
        v := v / 256;
      }
      ok := v == 0;
    }

    method SerializeField(value: Value, t: FieldType) returns (ok: bool)
      modifies this
      ensures Appended(old(buffer), buffer, Ser(codec, value, t), ok) && offset == old(offset)
      decreases Size(value), t, 1, 0
    {
      match t
      case TTuple(items) =>
        if items == [] {
          ok := true;
        } else {
          var elems := Items(codec, value);
          if elems.None? || |elems.value| != |items| {
            return false;
          }
          ok := SerializeAll(elems.value, items);
        }
      case TBool =>
        if !value.VBool? {
          return false;
        }
        ok := SerializeNum(if value.b then 1 else 0, 1);
      case TUint(width) =>
        var n := AsInt(value);
        if n.None? {
          return false;
        }
        ok := SerializeNum(n.value, width);
      case TString =>
        if !value.VStr? || !codec.utf8(value.utf8) {
          return false;
        }
        ok := SerializeNum(|value.utf8|, 4);
        if ok {
          buffer := buffer + value.utf8;
        }
      case TFixed(len) =>
        ok := value.VBytes? && |value.bytes| == len;
        if ok {
          buffer := buffer + value.bytes;
        }
      case TArray(item) =>
        var elems := Items(codec, value);
        if elems.None? {
          return false;
        }
        ok := SerializeNum(|elems.value|, 4);
        if ok {
          ok := SerializeEach(elems.value, item);
        }
      case TOption(item) =>
        if value.VNone? {
          ok := SerializeNum(0, 1);
        } else {
          ok := SerializeNum(1, 1);
          if ok {
            ok := SerializeField(value, item);
          }
        }
      case TClass(name) => ok := SerializeStruct(value, name);
      case TUnsupported => ok := false;
    }

    /** The loop over the elements of a tuple or the fields of an object. */
    method SerializeAll(vs: seq<Value>, ts: seq<FieldType>) returns (ok: bool)
      requires |vs| == |ts|
      modifies this
      ensures Appended(old(buffer), buffer, SerAll(codec, vs, ts), ok) && offset == old(offset)
      decreases SizeOf(vs), ts, 0, 0
    {
      hide Ser;
      ok := true;
      assert vs[0..] == vs && ts[0..] == ts && buffer[|old(buffer)|..] == [];
      JoinNothing(SerAll(codec, vs, ts));
      for i := 0 to |vs|
        invariant ok && old(buffer) <= buffer && offset == old(offset)
        invariant SerAll(codec, vs, ts) == Join(Some(buffer[|old(buffer)|..]), SerAll(codec, vs[i..], ts[i..]))
      {
        ghost var before := buffer;
        ghost var first, others := Ser(codec, vs[i], ts[i]), SerAll(codec, vs[i + 1..], ts[i + 1..]);
        assert vs[i..][1..] == vs[i + 1..] && ts[i..][1..] == ts[i + 1..];
        JoinAssociates(before[|old(buffer)|..], first, others);
        SizeAt(vs, i);
        ok := SerializeField(vs[i], ts[i]);
        if !ok {
          return;
        }
        assert buffer[|old(buffer)|..] == before[|old(buffer)|..] + first.value;
      }
    }

    /** The loop over the elements of a list. */
    method SerializeEach(vs: seq<Value>, t: FieldType) returns (ok: bool)
      modifies this
      ensures Appended(old(buffer), buffer, SerEach(codec, vs, t), ok) && offset == old(offset)
      decreases SizeOf(vs), t, 2, 0
    {
      hide Ser;
      ok := true;
      assert vs[0..] == vs && buffer[|old(buffer)|..] == [];
      JoinNothing(SerEach(codec, vs, t));
      for i := 0 to |vs|
        invariant ok && old(buffer) <= buffer && offset == old(offset)
        invariant SerEach(codec, vs, t) == Join(Some(buffer[|old(buffer)|..]), SerEach(codec, vs[i..], t))
      {
        ghost var before := buffer;
        ghost var first, others := Ser(codec, vs[i], t), SerEach(codec, vs[i + 1..], t);
        assert vs[i..][1..] == vs[i + 1..];
        JoinAssociates(before[|old(buffer)|..], first, others);
        SizeAt(vs, i);
        ok := SerializeField(vs[i], t);
        if !ok {
          return;
        }
        assert buffer[|old(buffer)|..] == before[|old(buffer)|..] + first.value;
      }
    }

    method SerializeStruct(value: Value, name: string) returns (ok: bool)
      modifies this
      ensures Appended(old(buffer), buffer, SerClass(codec, value, name), ok) && offset == old(offset)
      decreases Size(value), TClass(name), 0, 0
    {
      if name !in codec.schema {
        return false;
      }
      match codec.schema[name]
      case StructOf(fields) =>
        if !value.VStruct? || value.cls != name || |value.fields| != |fields| {
          return false;
        }
        ok := SerializeAll(value.fields, fields);
      case EnumOf(variants) =>
        if !value.VEnum? || value.cls != name {
          return false;
        }
        var i := 0;
        while i < |variants| && variants[i].0 != value.variant
          invariant 0 <= i <= |variants|
          invariant forall j :: 0 <= j < i ==> variants[j].0 != value.variant
          invariant buffer == old(buffer) && offset == old(offset)
        {
          i := i + 1;
        }
        if i == |variants| {
          return false;
        }
        assert i == FindVariant(variants, value.variant);
        ok := SerializeNum(i, 1);
        if ok {
          ok := SerializeField(value.payload, variants[i].1);
        }
    }

    /** `serialize`: the whole array, including whatever earlier calls left in it. */
    method Serialize(obj: Value, name: string) returns (r: Option<seq<Byte>>)
      modifies this
      ensures r == Join(Some(old(buffer)), SerClass(codec, obj, name))
      ensures r.Some? ==> buffer == r.value
    {
      var ok := SerializeStruct(obj, name);
      r := if ok then Some(buffer) else None;
    }

    // -------------------------------------------------------------------------
    // Reading
    // -------------------------------------------------------------------------

    method ReadBytes(n: nat) returns (r: Option<seq<Byte>>)
      requires offset <= |buffer|
      modifies this
      ensures buffer == old(buffer) && Advanced(buffer, offset, Take(n, old(buffer[offset..])), r)
    {
      if n + offset > |buffer| {
        return None;
      }
      ghost var from := buffer[offset..];
      r := Some(buffer[offset..offset + n]);
      assert from[..n] == r.value && from[n..] == buffer[offset + n..];
      offset := offset + n;
    }

    method DeserializeNum(width: nat) returns (r: Option<nat>)
      requires offset <= |buffer|
      modifies this
      ensures buffer == old(buffer) && Advanced(buffer, offset, ParseNum(width, old(buffer[offset..])), r)
    {
      var bytes := ReadBytes(width);
      if bytes.None? {
        return None;
      }
      var b := bytes.value;
      var value: nat := 0;
      for i := |b| downto 0
        invariant value == LeValue(b[i..])
        invariant buffer == old(buffer) && Advanced(buffer, offset, Take(width, old(buffer[offset..])), bytes)
      {
        assert b[i..][1..] == b[i + 1..];
        value := value * 256 + b[i];
      }
      assert b[0..] == b;
      r := Some(value);
    }

    method DeserializeField(depth: nat, t: FieldType) returns (r: Option<Value>)
      requires offset <= |buffer|
      modifies this
      ensures buffer == old(buffer) && Advanced(buffer, offset, Parse(codec, depth, t, old(buffer[offset..])), r)
      decreases depth, t, 1, 0
    {
      match t
      case TTuple(items) =>
        if items == [] {
          return Some(VNone);
        }
        var xs := DeserializeAll(depth, items);
        r := if xs.None? then None else Some(VTuple(xs.value));
      case TBool =>
        var n := DeserializeNum(1);
        r := if n.None? || n.value > 1 then None else Some(VBool(n.value == 1));
      case TUint(width) =>
        var n := DeserializeNum(width);
        r := if n.None? then None else Some(VInt(n.value));
      case TString =>
        var n := DeserializeNum(4);
        if n.None? {
          return None;
        }
        var b := ReadBytes(n.value);
        r := if b.None? || !codec.utf8(b.value) then None else Some(VStr(b.value));
      case TFixed(len) =>
        var b := ReadBytes(len);
        r := if b.None? then None else Some(VBytes(b.value));
      case TArray(item) =>
        var n := DeserializeNum(4);
        if n.None? {
          return None;
        }
        var xs := DeserializeEach(depth, item, n.value);
        r := if xs.None? then None else Some(VList(xs.value));
      case TOption(item) =>
        var tag := DeserializeNum(1);
        if tag.None? {
          return None;
        }
        if tag.value == 0 {
          return Some(VNone);
        }
        r := DeserializeField(depth, item);
      case TClass(name) =>
        if depth == 0 {
          return None;
        }
        r := DeserializeStruct(depth - 1, name);
      case TUnsupported => r := None;
    }

    method DeserializeAll(depth: nat, ts: seq<FieldType>) returns (r: Option<seq<Value>>)
      requires offset <= |buffer|
      modifies this
      ensures buffer == old(buffer) && Advanced(buffer, offset, ParseAll(codec, depth, ts, old(buffer[offset..])), r)
      decreases depth, ts, 0, 0
    {
      hide Parse;
      var xs: seq<Value> := [];
      assert ts[0..] == ts;
      PrefixedNone(ParseAll(codec, depth, ts, buffer[offset..]));
      for i := 0 to |ts|
        invariant buffer == old(buffer) && offset <= |buffer|
        invariant ParseAll(codec, depth, ts, old(buffer[offset..]))
                == Prefixed(xs, ParseAll(codec, depth, ts[i..], buffer[offset..]))
      {
        assert ts[i..][1..] == ts[i + 1..];
        var x := DeserializeField(depth, ts[i]);
        if x.None? {
          return None;
        }
        PrefixedAgain(xs, x.value, ParseAll(codec, depth, ts[i + 1..], buffer[offset..]));
        xs := xs + [x.value];
      }
      assert xs + [] == xs;
      r := Some(xs);
    }

    method DeserializeEach(depth: nat, t: FieldType, n: nat) returns (r: Option<seq<Value>>)
      requires offset <= |buffer|
      modifies this
      ensures buffer == old(buffer) && Advanced(buffer, offset, ParseEach(codec, depth, t, n, old(buffer[offset..])), r)
      decreases depth, t, 2
    {
      hide Parse;
      var xs: seq<Value> := [];
      PrefixedNone(ParseEach(codec, depth, t, n, buffer[offset..]));
      for i := 0 to n
        invariant buffer == old(buffer) && offset <= |buffer|
        invariant ParseEach(codec, depth, t, n, old(buffer[offset..]))
                == Prefixed(xs, ParseEach(codec, depth, t, n - i, buffer[offset..]))
      {
        var x := DeserializeField(depth, t);
        if x.None? {
          return None;
        }
        PrefixedAgain(xs, x.value, ParseEach(codec, depth, t, n - i - 1, buffer[offset..]));
        xs := xs + [x.value];
      }
      assert xs + [] == xs;
      r := Some(xs);
    }

    method DeserializeStruct(depth: nat, name: string) returns (r: Option<Value>)
      requires offset <= |buffer|
      modifies this
      ensures buffer == old(buffer) && Advanced(buffer, offset,
              ParseClass(codec, depth, name, old(buffer[offset..])), r)
      decreases depth
    {
      if name !in codec.schema {
        return None;
      }
      match codec.schema[name]
      case StructOf(fields) =>
        var xs := DeserializeAll(depth, fields);
        r := if xs.None? then None else Some(VStruct(name, xs.value));
      case EnumOf(variants) =>
        var i := DeserializeNum(1);
        if i.None? || i.value >= |variants| {
          return None;
        }
        var (variant, t) := variants[i.value];
        var x := DeserializeField(depth, t);
        r := if x.None? then None else Some(VEnum(name, variant, x.value));
    }

    /** `deserialize`: from the start of `bytes`, and to their end. */
    method Deserialize(bytes: seq<Byte>, t: FieldType, depth: nat) returns (r: Option<Value>)
      modifies this
      ensures r == BorshRoundTrip.Deserialize(codec, depth, t, bytes)
    {
      buffer := bytes;
      offset := 0;
      assert buffer[offset..] == bytes;
      r := DeserializeField(depth, t);
      if r.Some? && offset != |bytes| {
        r := None;
      }
    }
  }

  ghost function Prefixed(done: seq<Value>, p: Option<Parsed<seq<Value>>>): Option<Parsed<seq<Value>>> {
    if p.None? then None else Some(Parsed(done + p.value.value, p.value.rest))
  }

  lemma PrefixedNone(p: Option<Parsed<seq<Value>>>)
    ensures Prefixed([], p) == p
  {
    if p.Some? {
      assert [] + p.value.value == p.value.value;
    }
  }

  lemma PrefixedAgain(done: seq<Value>, x: Value, p: Option<Parsed<seq<Value>>>)
    ensures Prefixed(done, Prefixed([x], p)) == Prefixed(done + [x], p)
  {
    if p.Some? {
      assert done + ([x] + p.value.value) == done + [x] + p.value.value;
    }
  }

  lemma {:induction false} SizeAt(vs: seq<Value>, i: nat)
    requires i < |vs|
    ensures Size(vs[i]) <= SizeOf(vs)
  {
    if i > 0 {
      SizeAt(vs[1..], i - 1);
    }
  }

  lemma QuotientBound(v: nat, k: nat)
    requires k > 0
    ensures v < Pow(256, k) <==> v / 256 < Pow(256, k - 1)
  {
    assert Pow(256, k) == 256 * Pow(256, k - 1);
  }
}
