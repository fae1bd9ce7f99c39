/** The bytes of each kind of value, said without the reader. */
module BorshLayout {
  import opened Options
  import opened Bytes
  import opened Radix
  import opened BorshSchema

  function Concat(parts: seq<seq<Byte>>): seq<Byte> {
    if parts == [] then [] else parts[0] + Concat(parts[1..])
  }

  /** A number fits its width or fails, and its bytes go from the lowest to the highest. */
  lemma NumLayout(v: int, width: nat)
    ensures SerNum(v, width).Some? <==> 0 <= v < Pow(256, width)
    ensures SerNum(v, width).Some? ==> |SerNum(v, width).value| == width
    ensures SerNum(v, width).Some? ==>
              forall i :: 0 <= i < width ==> Pow(256, i) > 0 && SerNum(v, width).value[i] == v / Pow(256, i) % 256
  {
    hide Pow, LeBytes;
    if 0 <= v < Pow(256, width) {
      forall i | 0 <= i < width
        ensures Pow(256, i) > 0 && LeBytes(v, width)[i] == v / Pow(256, i) % 256
      {
        LeByteAt(v, width, i);
      }
    }
  }

  /** Four bytes of length and the text. */
  lemma StringLayout(c: Codec, utf8: seq<Byte>)
    ensures Ser(c, VStr(utf8), TString)
            == if c.utf8(utf8) && |utf8| < 0x1_0000_0000 then Some(LeBytes(|utf8|, 4) + utf8) else None
  {
    hide Pow, LeBytes;
    FourBytes();
  }

  lemma BoolLayout(c: Codec, b: bool)
    ensures Ser(c, VBool(b), TBool) == Some(if b then [1] else [0])
  {
    OneByte(0);
    OneByte(1);
  }

  lemma OptionLayout(c: Codec, v: Value, item: FieldType)
    ensures Ser(c, v, TOption(item))
            == if v.VNone? then Some([0])
               else if Ser(c, v, item).Some? then Some([1] + Ser(c, v, item).value) else None
  {
    OneByte(0);
    OneByte(1);
  }

  /** Every part is the encoding of its value at its type. */
  ghost predicate Parts(c: Codec, vs: seq<Value>, ts: seq<FieldType>, parts: seq<seq<Byte>>) {
    |vs| == |ts| == |parts| && forall i :: 0 <= i < |vs| ==> Ser(c, vs[i], ts[i]) == Some(parts[i])
  }

  ghost predicate AllWritten(c: Codec, vs: seq<Value>, ts: seq<FieldType>)
    requires |vs| == |ts|
  {
    forall i :: 0 <= i < |vs| ==> Ser(c, vs[i], ts[i]).Some?
  }

  lemma {:induction false} AllConcat(c: Codec, vs: seq<Value>, ts: seq<FieldType>, parts: seq<seq<Byte>>)
    requires Parts(c, vs, ts, parts)
    ensures SerAll(c, vs, ts) == Some(Concat(parts))
  {
    hide Ser;
    if vs != [] {
      AllConcat(c, vs[1..], ts[1..], parts[1..]);
    }
  }

  lemma {:induction false} AllFails(c: Codec, vs: seq<Value>, ts: seq<FieldType>, i: nat)
    requires |vs| == |ts| && i < |vs| && Ser(c, vs[i], ts[i]).None?
    ensures SerAll(c, vs, ts).None?
  {
    hide Ser;
    if i > 0 {
      AllFails(c, vs[1..], ts[1..], i - 1);
    }
  }

  lemma {:induction false} EachIsAll(c: Codec, vs: seq<Value>, t: FieldType)
    ensures SerEach(c, vs, t) == SerAll(c, vs, seq(|vs|, _ => t))
  {
    hide Ser;
    if vs != [] {
      EachIsAll(c, vs[1..], t);
      assert seq(|vs|, _ => t)[1..] == seq(|vs[1..]|, _ => t);
    }
  }

  /** A list: four bytes of length, then the elements in order; it fails exactly if too long or an element does. */
  lemma ListLayout(c: Codec, vs: seq<Value>, t: FieldType)
    ensures Ser(c, VList(vs), TArray(t)).Some?
            <==> |vs| < 0x1_0000_0000 && AllWritten(c, vs, seq(|vs|, _ => t))
    ensures forall parts :: Parts(c, vs, seq(|vs|, _ => t), parts) && |vs| < 0x1_0000_0000 ==>
                              Ser(c, VList(vs), TArray(t)) == Some(LeBytes(|vs|, 4) + Concat(parts))
  {
    hide Pow, LeBytes, SerEach, SerAll, AllWritten;
    var ts := seq(|vs|, _ => t);
    FourBytes();
    EachIsAll(c, vs, t);
    WrittenIff(c, vs, ts);
    forall parts | Parts(c, vs, ts, parts)
      ensures SerAll(c, vs, ts) == Some(Concat(parts))
    {
      AllConcat(c, vs, ts, parts);
    }
  }

  lemma WrittenIff(c: Codec, vs: seq<Value>, ts: seq<FieldType>)
    requires |vs| == |ts|
    ensures SerAll(c, vs, ts).Some? <==> AllWritten(c, vs, ts)
  {
    hide Ser, SerAll;
    if AllWritten(c, vs, ts) {
      var parts := seq(|vs|, i requires 0 <= i < |vs| => Ser(c, vs[i], ts[i]).value);
      AllConcat(c, vs, ts, parts);
    } else {
      var i :| 0 <= i < |vs| && Ser(c, vs[i], ts[i]).None?;
      AllFails(c, vs, ts, i);
    }
  }

  /** A tuple that is not empty, or the fields of an object: the parts in the order of the types. */
  lemma TupleLayout(c: Codec, vs: seq<Value>, ts: seq<FieldType>, parts: seq<seq<Byte>>)
    requires ts != [] && Parts(c, vs, ts, parts)
    ensures Ser(c, VTuple(vs), TTuple(ts)) == Some(Concat(parts))
  {
    hide SerAll;
    AllConcat(c, vs, ts, parts);
  }

  lemma StructLayout(c: Codec, name: string, vs: seq<Value>, parts: seq<seq<Byte>>)
    requires name in c.schema && c.schema[name].StructOf? && Parts(c, vs, c.schema[name].fields, parts)
    ensures Ser(c, VStruct(name, vs), TClass(name)) == Some(Concat(parts))
  {
    hide SerAll;
    AllConcat(c, vs, c.schema[name].fields, parts);
  }

  /** An object cannot be written if one of its fields cannot. */
  lemma StructFails(c: Codec, name: string, vs: seq<Value>, i: nat)
    requires name in c.schema && c.schema[name].StructOf? && |vs| == |c.schema[name].fields|
    requires i < |vs| && Ser(c, vs[i], c.schema[name].fields[i]).None?
    ensures Ser(c, VStruct(name, vs), TClass(name)) == None
  {
    hide SerAll;
    AllFails(c, vs, c.schema[name].fields, i);
  }

  lemma FirstVariant(variants: seq<(string, FieldType)>, i: nat)
    requires i < |variants| && forall j :: 0 <= j < i ==> variants[j].0 != variants[i].0
    ensures FindVariant(variants, variants[i].0) == i
  {
  }

  /** A variant: one byte with its position, then its value. */
  lemma EnumLayout(c: Codec, name: string, i: nat, payload: Value)
    requires name in c.schema && c.schema[name].EnumOf? && i < |c.schema[name].variants|
    requires forall j :: 0 <= j < i ==> c.schema[name].variants[j].0 != c.schema[name].variants[i].0
    ensures var (variant, t) := c.schema[name].variants[i];
            Ser(c, VEnum(name, variant, payload), TClass(name))
            == if i < 256 && Ser(c, payload, t).Some? then Some([i] + Ser(c, payload, t).value) else None
  {
    hide FindVariant;
    FirstVariant(c.schema[name].variants, i);
    OneByte(i);
  }

  /** Bytes at a list of u8: their number and themselves. */
  lemma BytesLayout(c: Codec, b: seq<Byte>)
    ensures Ser(c, VBytes(b), TArray(TUint(1)))
            == if |b| < 0x1_0000_0000 then Some(LeBytes(|b|, 4) + b) else None
  {
    hide Pow, LeBytes, SerEach;
    FourBytes();
    EachByte(c, b);
  }

  lemma {:induction false} EachByte(c: Codec, b: seq<Byte>)
    ensures SerEach(c, Ints(b), TUint(1)) == Some(b)
  {
    hide SerNum;
    if b != [] {
      EachByte(c, b[1..]);
      OneByte(b[0]);
      assert Ints(b)[0] == VInt(b[0]) && Ints(b)[1..] == Ints(b[1..]);
      assert b == [b[0]] + b[1..];
    }
  }
}
