/**
 * The decoder that decides from the first bytes of a download whether it is an XZ stream. The
 * decompressor is a sink: what matters is which chunks it is handed. Write errors are not modelled.
 */
module AutoXz {
  import opened Options
  import opened Bytes

  /** The header magic of section 2.1.1.1 of the XZ file format, version 1.0.4. */
  const MAGIC: seq<Byte> := [0xFD, 0x37, 0x7A, 0x58, 0x5A, 0x00]

  /** FD, the letters 7zXZ, and a zero. */
  lemma MagicBytes()
    ensures |MAGIC| == 6 && MAGIC[0] == 0xFD && MAGIC[5] == 0x00
    ensures forall i :: 0 <= i < 4 ==> MAGIC[i + 1] == "7zXZ"[i] as nat
  {
  }

  datatype XzState = Probing(pos: nat) | PlainText | Compressed

  function Flat(chunks: seq<seq<Byte>>): seq<Byte> {
    if chunks == [] then [] else Flat(chunks[..|chunks| - 1]) + chunks[|chunks| - 1]
  }

  lemma FlatNothing()
    ensures Flat([]) == []
  {
  }

  lemma FlatAppend(chunks: seq<seq<Byte>>, c: seq<Byte>)
    ensures Flat(chunks + [c]) == Flat(chunks) + c
  {
    assert (chunks + [c])[..|chunks|] == chunks;
  }

  ghost predicate NoneEmpty(chunks: seq<seq<Byte>>) {
    forall i :: 0 <= i < |chunks| ==> chunks[i] != []
  }

  /** Comparing the next `len` bytes of the magic decides as much as comparing everything so far. */
  lemma ProbeDecides(pos: nat, chunk: seq<Byte>)
    requires pos < 6 && chunk != []
    ensures var len := if 6 - pos < |chunk| then 6 - pos else |chunk|;
            var all := MAGIC[..pos] + chunk;
            && (MAGIC[pos..pos + len] != chunk[..len] ==> !(all <= MAGIC) && !(MAGIC <= all))
            && (MAGIC[pos..pos + len] == chunk[..len] && pos + len == 6 ==> MAGIC <= all)
            && (MAGIC[pos..pos + len] == chunk[..len] && pos + len < 6 ==> all == MAGIC[..pos + len])
  {
    var len := if 6 - pos < |chunk| then 6 - pos else |chunk|;
    var all := MAGIC[..pos] + chunk;
    assert all[pos..pos + len] == chunk[..len];
    if MAGIC[pos..pos + len] == chunk[..len] {
      assert MAGIC[..pos + len] == MAGIC[..pos] + MAGIC[pos..pos + len];
      assert all[..pos + len] == MAGIC[..pos + len];
      assert MAGIC[..6] == MAGIC;
    }
    if all <= MAGIC {
      assert all == MAGIC[..|all|];
      assert MAGIC[..|all|][pos..pos + len] == MAGIC[pos..pos + len];
    }
    if MAGIC <= all {
      assert all[..6] == MAGIC;
      assert all[..6][pos..pos + len] == all[pos..pos + len];
    }
  }

  class AutoXzDecoder {
    var state: XzState
    var file: seq<Byte>          // bytes written to the output file directly
    var fed: seq<seq<Byte>>      // arguments of the calls of the decompressor

    constructor ()
      ensures Holds([])
    {
      state := Probing(0);
      file := [];
      fed := [];
    }

    /** The object after the bytes `input`, in whatever pieces they came. */
    ghost predicate Holds(input: seq<Byte>)
      reads this
    {
      if |input| < 6 && input <= MAGIC then state == Probing(|input|) && file == [] && fed == []
      else if MAGIC <= input then state == Compressed && file == [] && Flat(fed) == input && NoneEmpty(fed)
      else state == PlainText && file == input && fed == []
    }

    method Probe(chunk: seq<Byte>) returns (r: Option<nat>)
      requires state.Probing? ==> state.pos < 6
      modifies this`state
      ensures chunk == [] ==> r == None && state == old(state)
      ensures chunk != [] && !old(state).Probing? ==> r == Some(0) && state == old(state)
      ensures chunk != [] && old(state).Probing? ==>
                var all := MAGIC[..old(state).pos] + chunk;
                if |all| < 6 && all <= MAGIC then r == None && state == Probing(|all|)
                else r == Some(old(state).pos) && state == if MAGIC <= all then Compressed else PlainText
    {
      if chunk == [] {
        return None;
      }
      if state.Probing? {
        var pos := state.pos;
        ProbeDecides(pos, chunk);
        var len := if |MAGIC| - pos < |chunk| then |MAGIC| - pos else |chunk|;
        if MAGIC[pos..pos + len] != chunk[..len] {
          state := PlainText;
          r := Some(pos);
        } else if pos + len == |MAGIC| {
          state := Compressed;
          r := Some(pos);
        } else {
          state := Probing(pos + len);
          r := None;
        }
      } else {
        r := Some(0);
      }
    }

    /** Callers never get here while probing: the arm the source marks unreachable is. */
    method WriteAllImpl(chunk: seq<Byte>)
      requires !state.Probing?
      modifies this`file, this`fed
      ensures state.PlainText? ==> file == old(file) + chunk && fed == old(fed)
      ensures state.Compressed? ==> file == old(file) && fed == old(fed) + [chunk]
    {
      match state
      case PlainText => file := file + chunk;
      case Compressed => fed := fed + [chunk];
    }

    method WriteAll(chunk: seq<Byte>, ghost input: seq<Byte>)
      requires Holds(input)
      modifies this
      ensures Holds(input + chunk)
    {
      hide Flat;
      FlatNothing();
      assert input + [] == input;
      if state.Probing? {
        assert MAGIC[..|input|] == input;
      }
      var len := Probe(chunk);
      if len.Some? {
        if len.value != 0 {
          FlatAppend(fed, MAGIC[..len.value]);
          WriteAllImpl(MAGIC[..len.value]);
        }
        FlatAppend(fed, chunk);
        WriteAllImpl(chunk);
      }
    }

    /** The bytes held back while probing go out, and a decompressor is told that the stream ended. */
    method Finish(ghost input: seq<Byte>)
      requires Holds(input)
      modifies this
      ensures !(MAGIC <= input) ==> file == input && fed == []
      ensures MAGIC <= input ==> file == [] && |fed| > 0 && fed[|fed| - 1] == []
      ensures MAGIC <= input ==> Flat(fed[..|fed| - 1]) == input && NoneEmpty(fed[..|fed| - 1])
    {
      match state
      case Probing(pos) =>
        assert MAGIC[..pos] == input;
        file := file + MAGIC[..pos];
      case PlainText =>
      case Compressed =>
        ghost var before := fed;
        fed := fed + [[]];
        assert fed[..|fed| - 1] == before;
    }
  }

  /**
   * The whole download, for every way of cutting the stream into chunks, empty ones included:
   * a stream that does not start with the magic is written out unchanged; one that does goes to the
   * decompressor unchanged, in non-empty pieces followed by one empty piece for the end.
   */
  method Download(chunks: seq<seq<Byte>>) returns (file: seq<Byte>, fed: seq<seq<Byte>>)
    ensures !(MAGIC <= Flat(chunks)) ==> file == Flat(chunks) && fed == []
    ensures MAGIC <= Flat(chunks) ==> file == [] && |fed| > 0 && fed[|fed| - 1] == []
    ensures MAGIC <= Flat(chunks) ==> Flat(fed[..|fed| - 1]) == Flat(chunks) && NoneEmpty(fed[..|fed| - 1])
  {
    var out := new AutoXzDecoder();
    for i := 0 to |chunks|
      invariant out.Holds(Flat(chunks[..i]))
    {
      assert chunks[..i + 1][..i] == chunks[..i];
      out.WriteAll(chunks[i], Flat(chunks[..i]));
    }
    assert chunks[..|chunks|] == chunks;
    out.Finish(Flat(chunks));
    file, fed := out.file, out.fed;
  }
}
