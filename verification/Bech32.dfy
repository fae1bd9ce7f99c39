/**
 * Segwit addresses: the two encoders, the decoder and the scripts derived from an address.
 * A string is the sequence of its UTF-8 bytes, each held in a character below 256.
 */
module Bech32 {
  import opened Options
  import opened Polymod
  import opened Regroup
  import opened Bytes

  const CHARSET: string := "qpzry9x8gf2tvdw0s3jn54khce6mua7l"

  ghost predicate IsByteString(s: string) {
    forall i :: 0 <= i < |s| ==> s[i] as nat < 256
  }

  /** The first position of `c`, or the length when there is none. */
  function IndexOf(s: string, c: char): (i: nat)
    ensures i <= |s|
    ensures i < |s| ==> s[i] == c
    ensures forall j :: 0 <= j < i ==> s[j] != c
  {
    if s == [] || s[0] == c then 0 else 1 + IndexOf(s[1..], c)
  }

  function LastIndexOf(s: string, c: char): (r: Option<nat>)
    ensures r.None? ==> forall j :: 0 <= j < |s| ==> s[j] != c
    ensures r.Some? ==> r.value < |s| && s[r.value] == c && forall j :: r.value < j < |s| ==> s[j] != c
  {
    if s == [] then None
    else if s[|s| - 1] == c then Some(|s| - 1)
    else LastIndexOf(s[..|s| - 1], c)
  }

  function HrpExpand(hrp: string): seq<Symbol>
    requires IsByteString(hrp)
  {
    seq(|hrp|, i requires 0 <= i < |hrp| => hrp[i] as nat / 32) + [0]
        + seq(|hrp|, i requires 0 <= i < |hrp| => hrp[i] as nat % 32)
  }

  function CharOf(d: Symbol): char {
    CHARSET[d]
  }

  function Chars(symbols: seq<Symbol>): string {
    seq(|symbols|, i requires 0 <= i < |symbols| => CharOf(symbols[i]))
  }

  function Lookup(c: char): seq<Symbol> {
    var i := IndexOf(CHARSET, c);
    if i < 32 then [i] else []
  }

  /** The symbols of the characters that are in the character set; the others are skipped. */
  function SymbolsOf(s: string): seq<Symbol> {
    if s == [] then [] else SymbolsOf(s[..|s| - 1]) + Lookup(s[|s| - 1])
  }

  function Data(version: Symbol, program: seq<Byte>): seq<Symbol> {
    [version] + ToSymbols(program)
  }

  function Address(hrp: string, version: Symbol, program: seq<Byte>): string
    requires IsByteString(hrp)
  {
    var data := Data(version, program);
    hrp + "1" + Chars(data + Checksum(HrpExpand(hrp) + data))
  }

  function DecodeProgram(addr: string): Option<seq<Byte>> {
    match LastIndexOf(addr, '1')
    case None => None
    case Some(p) =>
      var data := SymbolsOf(addr[p + 1..]);
      if |data| <= 7 then None else Some(ToBytes(data[1..|data| - 6]))
  }

  // ---------------------------------------------------------------------------
  // The source's routines
  // ---------------------------------------------------------------------------

  method Bech32EncodeLocal(hrp: string, version: Symbol, program: seq<Byte>) returns (result: string)
    requires IsByteString(hrp)
    ensures result == Address(hrp, version, program)
  {
    hide ToSymbols, HrpExpand, Xor, PolymodFrom, ChecksumOf;
    var groups := EncodeSymbols(program);
    var data := [version] + groups;
    var values := HrpExpand(hrp) + data + Zeros(6);
    var pm := Polymod.Polymod(values);
    var symbols := data + ChecksumOf(Xor(pm, 1));
    result := hrp + ['1'];
    for i := 0 to |symbols|
      invariant result == hrp + "1" + Chars(symbols[..i])
    {
      assert Chars(symbols[..i + 1]) == Chars(symbols[..i]) + [CharOf(symbols[i])];
      result := result + [CharOf(symbols[i])];
    }
    assert symbols[..|symbols|] == symbols;
  }

  method DeriveScriptPubKeyAddress(pubkeyHash: seq<Byte>, hrp: string) returns (result: string)
    requires IsByteString(hrp)
    ensures result == if |pubkeyHash| == 20 then Address(hrp, 0, pubkeyHash) else ""
  {
    hide ToSymbols, HrpExpand, Xor, PolymodFrom, ChecksumOf;
    if |pubkeyHash| != 20 {
      return "";
    }
    var groups := EncodeSymbols(pubkeyHash);
    var data: seq<Symbol> := [0] + groups;
    var pm := Polymod.Polymod(HrpExpand(hrp) + data + Zeros(6));
    var check := ChecksumOf(Xor(pm, 1));
    result := hrp + ['1'];
    for i := 0 to |data + check|
      invariant result == hrp + "1" + Chars((data + check)[..i])
    {
      var d := (data + check)[i];
      assert Chars((data + check)[..i + 1]) == Chars((data + check)[..i]) + [CharOf(d)];
      result := result + [CharOf(d)];
    }
    assert (data + check)[..|data + check|] == data + check;
  }

  method DecodeBech32Program(addr: string) returns (r: Option<seq<Byte>>)
    ensures r == DecodeProgram(addr)
  {
    hide ToBytes, Lookup, LastIndexOf;
    var sep := LastIndexOf(addr, '1');
    if sep.None? {
      return None;
    }
    var part := addr[sep.value + 1..];
    var data: seq<Symbol> := [];
    for i := 0 to |part|
      invariant data == SymbolsOf(part[..i])
    {
      assert part[..i + 1][..i] == part[..i];
      data := data + Lookup(part[i]);
    }
    assert part[..|part|] == part;
    if |data| <= 7 {
      return None;
    }
    var program := DecodeBytes(data[1..|data| - 6]);
    r := Some(program);
  }

  // ---------------------------------------------------------------------------
  // Characters and symbols
  // ---------------------------------------------------------------------------

  lemma CharsetDistinct()
    ensures |CHARSET| == 32
    ensures forall i, j :: 0 <= i < j < 32 ==> CHARSET[i] != CHARSET[j]
  {
  }

  lemma NoSeparator(d: Symbol)
    ensures CharOf(d) != '1'
  {
  }

  lemma CharToSymbol(d: Symbol)
    ensures Lookup(CharOf(d)) == [d]
  {
    hide IndexOf;
    CharsetDistinct();
    var i := IndexOf(CHARSET, CharOf(d));
    assert i <= d;
  }

  lemma {:induction false} SymbolsOfChars(symbols: seq<Symbol>)
    ensures SymbolsOf(Chars(symbols)) == symbols
  {
    hide Lookup, CharOf;
    if symbols != [] {
      var init, last := symbols[..|symbols| - 1], symbols[|symbols| - 1];
      SymbolsOfChars(init);
      CharToSymbol(last);
      assert Chars(symbols)[..|symbols| - 1] == Chars(init);
      assert symbols == init + [last];
    }
  }

  lemma NoSeparatorIn(symbols: seq<Symbol>)
    ensures forall i :: 0 <= i < |symbols| ==> Chars(symbols)[i] != '1'
  {
    hide CharOf;
    forall i | 0 <= i < |symbols|
      ensures Chars(symbols)[i] != '1'
    {
      NoSeparator(symbols[i]);
    }
  }

  lemma LastIndexIs(s: string, c: char, k: nat)
    requires k < |s| && s[k] == c && forall j :: k < j < |s| ==> s[j] != c
    ensures LastIndexOf(s, c) == Some(k)
  {
    hide LastIndexOf;
    var r := LastIndexOf(s, c);
    assert r.Some?;
    assert k <= r.value;
  }

  lemma AfterFront(front: string, tail: string)
    requires front != [] && front[|front| - 1] == '1' && forall i :: 0 <= i < |tail| ==> tail[i] != '1'
    ensures (front + tail)[|front| - 1] == '1'
    ensures forall j :: |front| <= j < |front + tail| ==> (front + tail)[j] != '1'
  {
    forall j | |front| <= j < |front + tail|
      ensures (front + tail)[j] != '1'
    {
      assert (front + tail)[j] == tail[j - |front|];
    }
  }

  lemma SeparatorIsLast(hrp: string, symbols: seq<Symbol>)
    ensures LastIndexOf(hrp + "1" + Chars(symbols), '1') == Some(|hrp|)
  {
    hide LastIndexOf, CharOf;
    var front, tail := hrp + "1", Chars(symbols);
    NoSeparatorIn(symbols);
    AfterFront(front, tail);
    LastIndexIs(front + tail, '1', |hrp|);
  }

  // ---------------------------------------------------------------------------
  // Validity and error detection
  // ---------------------------------------------------------------------------

  ghost predicate InCharset(s: string) {
    forall i :: 0 <= i < |s| ==> s[i] in CHARSET
  }

  /** The high three bits of each byte, a zero, and the low five bits of each byte. */
  ghost predicate IsExpansion(hrp: string, e: seq<Symbol>) {
    && |e| == 2 * |hrp| + 1 && e[|hrp|] == 0
    && forall i :: 0 <= i < |hrp| ==> e[i] < 8 && hrp[i] as nat == 32 * (e[i] as nat) + e[|hrp| + 1 + i]
  }

  lemma ExpandIs(hrp: string)
    requires IsByteString(hrp)
    ensures IsExpansion(hrp, HrpExpand(hrp))
  {
    var e := HrpExpand(hrp);
    forall i | 0 <= i < |hrp|
      ensures e[i] < 8 && hrp[i] as nat == 32 * (e[i] as nat) + e[|hrp| + 1 + i]
    {
      assert e[i] == hrp[i] as nat / 32 && e[|hrp| + 1 + i] == hrp[i] as nat % 32;
    }
  }

  lemma ExpansionUnique(hrp: string, e: seq<Symbol>, f: seq<Symbol>)
    requires IsExpansion(hrp, e) && IsExpansion(hrp, f)
    ensures e == f
  {
    forall j | 0 <= j < |e|
      ensures e[j] == f[j]
    {
      if j != |hrp| {
        var i := if j < |hrp| then j else j - |hrp| - 1;
        assert 32 * (e[i] as nat) + e[|hrp| + 1 + i] == 32 * (f[i] as nat) + f[|hrp| + 1 + i];
      }
    }
  }

  /** The expansions of the three networks. */
  lemma KnownExpansions()
    ensures HrpExpand("bc") == [3, 3, 0, 2, 3]
    ensures HrpExpand("tb") == [3, 3, 0, 20, 2]
    ensures HrpExpand("bcrt") == [3, 3, 3, 3, 0, 2, 3, 18, 20]
  {
    assert HrpExpand("bc") == [3, 3, 0, 2, 3];
    assert HrpExpand("tb") == [3, 3, 0, 20, 2];
    assert HrpExpand("bcrt") == [3, 3, 3, 3, 0, 2, 3, 18, 20];
  }

  /** The checksum condition of the standard, on the characters after the separator. */
  ghost predicate ValidAddress(hrp: string, addr: string) {
    && |addr| >= |hrp| + 7
    && addr[..|hrp| + 1] == hrp + "1"
    && InCharset(addr[|hrp| + 1..])
    && exists e :: IsExpansion(hrp, e) && PolymodFrom(1, e + SymbolsOf(addr[|hrp| + 1..])) == 1
  }

  /** What the encoders produce satisfies it, for every prefix and program. */
  lemma EncodedIsValid(hrp: string, version: Symbol, program: seq<Byte>)
    requires IsByteString(hrp)
    ensures ValidAddress(hrp, Address(hrp, version, program))
  {
    hide PolymodFrom, Checksum, HrpExpand, ToSymbols, SymbolsOf;
    var data := Data(version, program);
    var symbols := data + Checksum(HrpExpand(hrp) + data);
    var addr := Address(hrp, version, program);
    ExpandIs(hrp);
    ChecksumVerifies(HrpExpand(hrp) + data);
    assert addr[|hrp| + 1..] == Chars(symbols);
    SymbolsOfChars(symbols);
    assert HrpExpand(hrp) + symbols == HrpExpand(hrp) + data + Checksum(HrpExpand(hrp) + data);
  }

  lemma {:induction false} SymbolsOfConcat(a: string, b: string)
    ensures SymbolsOf(a + b) == SymbolsOf(a) + SymbolsOf(b)
  {
    hide Lookup;
    if b == [] {
      assert a + b == a;
    } else {
      var init, last := b[..|b| - 1], b[|b| - 1];
      SymbolsOfConcat(a, init);
      assert (a + b)[..|a + b| - 1] == a + init;
      assert SymbolsOf(a) + (SymbolsOf(init) + Lookup(last)) == SymbolsOf(a) + SymbolsOf(init) + Lookup(last);
    }
  }

  lemma SymbolToChar(c: char)
    requires c in CHARSET
    ensures |Lookup(c)| == 1 && CharOf(Lookup(c)[0]) == c
  {
    hide IndexOf;
    var i := IndexOf(CHARSET, c);
    assert |CHARSET| == 32;
    assert i < |CHARSET|;
  }

  /** Within the character set nothing is skipped, and different characters are different symbols. */
  lemma {:induction false} SymbolsOfInCharset(s: string)
    requires InCharset(s)
    ensures |SymbolsOf(s)| == |s| && Chars(SymbolsOf(s)) == s
  {
    hide Lookup, CharOf;
    if s != [] {
      var init, last := s[..|s| - 1], s[|s| - 1];
      SymbolsOfInCharset(init);
      SymbolToChar(last);
      assert s == init + [last];
    }
  }

  /**
   * Two valid addresses with the same prefix that agree outside six consecutive characters, at
   * whatever length, are the same address. In particular no single wrong character and no swap of
   * two neighbours goes unnoticed.
   */
  lemma BurstInAddress(hrp: string, head: string, x: string, y: string, tail: string)
    requires |x| == |y| <= 6
    requires ValidAddress(hrp, hrp + "1" + head + x + tail)
    requires ValidAddress(hrp, hrp + "1" + head + y + tail)
    ensures x == y
  {
    hide PolymodFrom, SymbolsOf, IsExpansion;
    var a, b := hrp + "1" + head + x + tail, hrp + "1" + head + y + tail;
    assert a[|hrp| + 1..] == head + x + tail && b[|hrp| + 1..] == head + y + tail;
    SymbolsOfConcat(head + x, tail);
    SymbolsOfConcat(head, x);
    SymbolsOfConcat(head + y, tail);
    SymbolsOfConcat(head, y);
    PartsInCharset(head, x, tail);
    PartsInCharset(head, y, tail);
    SymbolsOfInCharset(x);
    SymbolsOfInCharset(y);
    var e :| IsExpansion(hrp, e) && PolymodFrom(1, e + SymbolsOf(head + x + tail)) == 1;
    var f :| IsExpansion(hrp, f) && PolymodFrom(1, f + SymbolsOf(head + y + tail)) == 1;
    ExpansionUnique(hrp, e, f);
    var pre := e + SymbolsOf(head);
    assert e + SymbolsOf(head + x + tail) == pre + SymbolsOf(x) + SymbolsOf(tail);
    assert e + SymbolsOf(head + y + tail) == pre + SymbolsOf(y) + SymbolsOf(tail);
    BurstDetected(pre, SymbolsOf(x), SymbolsOf(y), SymbolsOf(tail));
  }

  lemma PartsInCharset(head: string, x: string, tail: string)
    requires InCharset(head + x + tail)
    ensures InCharset(x)
  {
    var s := head + x + tail;
    forall i | 0 <= i < |x| ensures x[i] in CHARSET {
      assert s[|head| + i] == x[i];
    }
  }

  // ---------------------------------------------------------------------------
  // Round trip
  // ---------------------------------------------------------------------------

  predicate InSet(c: char) {
    c in CHARSET
  }

  /** The positions of the characters in the set. */
  ghost function Places(s: string): set<nat> {
    set i | 0 <= i < |s| && InSet(s[i])
  }

  lemma LookupIs(c: char)
    ensures |Lookup(c)| == if InSet(c) then 1 else 0
  {
    var i := IndexOf(CHARSET, c);
    assert i < 32 ==> CHARSET[i] == c;
  }

  lemma {:induction false} SymbolsOfLength(s: string)
    ensures |SymbolsOf(s)| == |Places(s)|
  {
    hide Lookup, InSet;
    if s != [] {
      var n := |s| - 1;
      SymbolsOfLength(s[..n]);
      LookupIs(s[n]);
      assert Places(s) == Places(s[..n]) + if InSet(s[n]) then {n} else {};
    }
  }

  /** A string is decoded exactly if at least eight characters of the set stand behind its last separator. */
  lemma DecodableIff(front: string, rest: string)
    requires '1' !in rest
    ensures DecodeProgram(front + "1" + rest).Some? <==> |Places(rest)| >= 8
    ensures DecodeProgram(rest) == None
  {
    hide SymbolsOf, LastIndexOf, ToBytes, Places;
    var addr := front + "1" + rest;
    AfterFront(front + "1", rest);
    LastIndexIs(addr, '1', |front|);
    assert addr[|front| + 1..] == rest;
    SymbolsOfLength(rest);
    assert LastIndexOf(rest, '1').None?;
  }

  /** A character that is neither in the set nor a separator makes no difference to the decoder. */
  lemma OthersAreSkipped(front: string, a: string, x: char, b: string)
    requires x !in CHARSET && x != '1' && '1' !in a && '1' !in b
    ensures DecodeProgram(front + "1" + (a + [x] + b)) == DecodeProgram(front + "1" + (a + b))
  {
    hide SymbolsOf, LastIndexOf, ToBytes;
    var head := front + "1";
    AfterFront(head, a + [x] + b);
    AfterFront(head, a + b);
    LastIndexIs(head + (a + [x] + b), '1', |front|);
    LastIndexIs(head + (a + b), '1', |front|);
    assert (head + (a + [x] + b))[|front| + 1..] == a + [x] + b;
    assert (head + (a + b))[|front| + 1..] == a + b;
    SymbolsOfConcat(a + [x], b);
    SymbolsOfConcat(a, [x]);
    SymbolsOfConcat(a, b);
    NoSymbol(x);
    assert SymbolsOf(a) + [] == SymbolsOf(a);
  }

  lemma NoSymbol(x: char)
    requires x !in CHARSET
    ensures SymbolsOf([x]) == []
  {
    hide IndexOf;
    assert |CHARSET| == 32;
    assert IndexOf(CHARSET, x) == 32;
    assert [x][..0] == [];
  }

  /** An address with any six characters of the set where the checksum belongs. */
  function Spelled(hrp: string, version: Symbol, program: seq<Byte>, tail: seq<Symbol>): string {
    hrp + "1" + Chars(Data(version, program) + tail)
  }

  /** The decoder never looks at the last six characters: whatever they are, the program comes back. */
  lemma DecodeSpelled(hrp: string, version: Symbol, program: seq<Byte>, tail: seq<Symbol>)
    requires |tail| == 6
    ensures DecodeProgram(Spelled(hrp, version, program, tail)) == if program == [] then None else Some(program)
  {
    hide ToSymbols, ToBytes, SymbolsOf, LastIndexOf;
    var symbols := Data(version, program) + tail;
    var addr := Spelled(hrp, version, program, tail);
    SeparatorIsLast(hrp, symbols);
    assert addr[|hrp| + 1..] == Chars(symbols);
    SymbolsOfChars(symbols);
    assert symbols[1..|symbols| - 6] == ToSymbols(program);
    RoundTrip(program);
  }

  lemma AddressIsSpelled(hrp: string, version: Symbol, program: seq<Byte>)
    requires IsByteString(hrp)
    ensures var check := Checksum(HrpExpand(hrp) + Data(version, program));
            |check| == 6 && Address(hrp, version, program) == Spelled(hrp, version, program, check)
  {
    ChecksumVerifies(HrpExpand(hrp) + Data(version, program));
  }

  /** Decoding an encoded address gives the program back, and nothing for the empty program. */
  lemma DecodeEncoded(hrp: string, version: Symbol, program: seq<Byte>)
    requires IsByteString(hrp)
    ensures DecodeProgram(Address(hrp, version, program)) == if program == [] then None else Some(program)
  {
    hide Spelled, DecodeProgram, Address, Checksum, HrpExpand, Data;
    AddressIsSpelled(hrp, version, program);
    DecodeSpelled(hrp, version, program, Checksum(HrpExpand(hrp) + Data(version, program)));
  }

  // ---------------------------------------------------------------------------
  // Scripts
  // ---------------------------------------------------------------------------

  const HEX: string := "0123456789abcdef"

  function Hex(bytes: seq<Byte>): string {
    if bytes == [] then "" else Hex(bytes[..|bytes| - 1]) + [HEX[bytes[|bytes| - 1] / 16], HEX[bytes[|bytes| - 1] % 16]]
  }

  /** Base58 decoding and the hash behind the fallback belong to libraries and are parameters. */
  function DeriveScriptPubKey(addr: string, base58: string -> Option<seq<Byte>>,
                              accountHash: string -> seq<Byte>): string {
    var program := DecodeProgram(addr);
    var decoded := base58(addr);
    if SegwitStart(addr) && program.Some? && |program.value| == 20 then
      "0014" + Hex(program.value)
    else if TaprootStart(addr) && program.Some? && |program.value| == 32 then
      "5120" + Hex(program.value)
    else if Base58Start(addr) && decoded.Some? && |decoded.value| >= 25 then
      // a leading 3 or 2 is tried before 1, m and n; no address starts with two of them
      if "3" <= addr || "2" <= addr then "a914" + Hex(decoded.value[1..21]) + "87"
      else "76a914" + Hex(decoded.value[1..21]) + "88ac"
    else
      "76a914" + Hex(accountHash(addr)) + "88ac"
  }

  lemma SpelledStart(hrp: string, version: Symbol, program: seq<Byte>, tail: seq<Symbol>)
    ensures hrp + ['1', CharOf(version)] <= Spelled(hrp, version, program, tail)
  {
    assert Chars(Data(version, program) + tail)[0] == CharOf(version);
  }

  ghost predicate KnownHrp(hrp: string) {
    hrp == "bc" || hrp == "tb" || hrp == "bcrt"
  }

  lemma VersionChars()
    ensures CharOf(0) == 'q' && CharOf(1) == 'p'
  {
  }

  predicate SegwitStart(addr: string) {
    "bc1q" <= addr || "tb1q" <= addr || "bcrt1q" <= addr
  }

  predicate TaprootStart(addr: string) {
    "bc1p" <= addr || "tb1p" <= addr || "bcrt1p" <= addr
  }

  predicate Base58Start(addr: string) {
    "3" <= addr || "2" <= addr || "1" <= addr || "m" <= addr || "n" <= addr
  }

  lemma StartOfKnown(hrp: string, c: char, addr: string)
    requires KnownHrp(hrp) && hrp + ['1', c] <= addr
    ensures SegwitStart(addr) <==> c == 'q'
    ensures TaprootStart(addr) <==> c == 'p'
    ensures !Base58Start(addr)
  {
    var start := hrp + ['1', c];
    assert addr[..|start|] == start;
    if |hrp| == 2 {
      assert addr[0] == hrp[0] && addr[1] == hrp[1] && addr[2] == '1' && addr[3] == c;
      assert addr[..4] == [hrp[0], hrp[1], '1', c];
    } else {
      assert addr[0] == 'b' && addr[1] == 'c' && addr[2] == 'r' && addr[3] == 't' && addr[4] == '1' && addr[5] == c;
      assert addr[..6] == ['b', 'c', 'r', 't', '1', c];
    }
    assert c == 'q' && hrp == "bc" ==> addr[..4] == "bc1q";
    assert c == 'q' && hrp == "tb" ==> addr[..4] == "tb1q";
    assert c == 'q' && hrp == "bcrt" ==> addr[..6] == "bcrt1q";
    assert c == 'p' && hrp == "bc" ==> addr[..4] == "bc1p";
    assert c == 'p' && hrp == "tb" ==> addr[..4] == "tb1p";
    assert c == 'p' && hrp == "bcrt" ==> addr[..6] == "bcrt1p";
  }

  function Fallback(hash: seq<Byte>): string {
    "76a914" + Hex(hash) + "88ac"
  }

  /**
   * The script of a version 0 or 1 address with one of the known prefixes and any last six
   * characters, so of Bech32 and Bech32m addresses alike: the witness script of its program exactly
   * when that has 20 bytes, or 32, and the synthetic P2PKH script otherwise.
   */
  lemma ScriptOfSpelled(hrp: string, version: Symbol, program: seq<Byte>, tail: seq<Symbol>,
                        base58: string -> Option<seq<Byte>>, accountHash: string -> seq<Byte>)
    requires KnownHrp(hrp) && version <= 1 && |tail| == 6
    ensures var addr := Spelled(hrp, version, program, tail);
            DeriveScriptPubKey(addr, base58, accountHash)
            == if version == 0 && |program| == 20 then "0014" + Hex(program)
               else if version == 1 && |program| == 32 then "5120" + Hex(program)
               else Fallback(accountHash(addr))
  {
    hide Spelled, DecodeProgram, Hex, SegwitStart, TaprootStart, Base58Start, CharOf;
    VersionChars();
    DecodeSpelled(hrp, version, program, tail);
    SpelledStart(hrp, version, program, tail);
    StartOfKnown(hrp, CharOf(version), Spelled(hrp, version, program, tail));
  }

  /** What the encoders make of a 20-byte hash, and only that, gets the witness script. */
  lemma ScriptOfEncoded(hrp: string, program: seq<Byte>, base58: string -> Option<seq<Byte>>,
                        accountHash: string -> seq<Byte>)
    requires KnownHrp(hrp)
    ensures IsByteString(hrp)
    ensures var addr := Address(hrp, 0, program);
            DeriveScriptPubKey(addr, base58, accountHash)
            == if |program| == 20 then "0014" + Hex(program) else Fallback(accountHash(addr))
  {
    hide Spelled, DeriveScriptPubKey, Address, Hex, Checksum, HrpExpand, Data;
    AddressIsSpelled(hrp, 0, program);
    ScriptOfSpelled(hrp, 0, program, Checksum(HrpExpand(hrp) + Data(0, program)), base58, accountHash);
  }

  /** Addresses of the older kinds: the hash between the first byte and the check bytes, in the script of its kind. */
  lemma ScriptOfBase58(addr: string, base58: string -> Option<seq<Byte>>, accountHash: string -> seq<Byte>)
    requires addr != [] && base58(addr).Some? && |base58(addr).value| >= 25
    ensures addr[0] == '3' || addr[0] == '2' ==>
              DeriveScriptPubKey(addr, base58, accountHash) == "a914" + Hex(base58(addr).value[1..21]) + "87"
    ensures addr[0] == '1' || addr[0] == 'm' || addr[0] == 'n' ==>
              DeriveScriptPubKey(addr, base58, accountHash) == "76a914" + Hex(base58(addr).value[1..21]) + "88ac"
  {
    hide DecodeProgram, Hex;
    assert SegwitStart(addr) || TaprootStart(addr) ==> addr[0] == 'b' || addr[0] == 't';
  }

  /** Everything else gets the script of a hash of the account id. */
  lemma ScriptOfOthers(addr: string, base58: string -> Option<seq<Byte>>, accountHash: string -> seq<Byte>)
    requires !("bc1q" <= addr || "tb1q" <= addr || "bcrt1q" <= addr)
    requires !("bc1p" <= addr || "tb1p" <= addr || "bcrt1p" <= addr)
    requires !("1" <= addr || "2" <= addr || "3" <= addr || "m" <= addr || "n" <= addr)
    ensures DeriveScriptPubKey(addr, base58, accountHash) == "76a914" + Hex(accountHash(addr)) + "88ac"
  {
    hide DecodeProgram, Hex;
  }

  /** The number that a hexadecimal digit stands for. */
  function HexValue(c: char): nat {
    if '0' <= c <= '9' then c as nat - '0' as nat else if 'a' <= c <= 'f' then c as nat - 'a' as nat + 10 else 16
  }

  lemma HexValues(d: nat)
    requires d < 16
    ensures HexValue(HEX[d]) == d
  {
  }

  /** The text has two digits for each byte, the high one first. */
  lemma {:induction false} HexAt(bytes: seq<Byte>, i: nat)
    requires i < |bytes|
    ensures |Hex(bytes)| == 2 * |bytes|
    ensures 16 * HexValue(Hex(bytes)[2 * i]) + HexValue(Hex(bytes)[2 * i + 1]) == bytes[i]
  {
    hide HexValue;
    var n := |bytes| - 1;
    HexLength(bytes[..n]);
    if i < n {
      HexAt(bytes[..n], i);
    } else {
      HexValues(bytes[n] / 16);
      HexValues(bytes[n] % 16);
    }
  }

  lemma {:induction false} HexLength(bytes: seq<Byte>)
    ensures |Hex(bytes)| == 2 * |bytes|
  {
    if bytes != [] {
      HexLength(bytes[..|bytes| - 1]);
    }
  }

  lemma HexDigits()
    ensures |HEX| == 16 && forall i, j :: 0 <= i < j < 16 ==> HEX[i] != HEX[j]
  {
  }

  /** Different programs have different hexadecimal forms, so the script determines the program. */
  lemma {:induction false} HexInjective(a: seq<Byte>, b: seq<Byte>)
    requires Hex(a) == Hex(b)
    ensures a == b
  {
    if a == [] || b == [] {
      assert a == b;
    } else {
      var x, y := a[|a| - 1], b[|b| - 1];
      var s, t := Hex(a), Hex(b);
      HexDigits();
      assert s[|s| - 2] == HEX[x / 16] && s[|s| - 1] == HEX[x % 16];
      assert t[|t| - 2] == HEX[y / 16] && t[|t| - 1] == HEX[y % 16];
      assert s[..|s| - 2] == Hex(a[..|a| - 1]) && t[..|t| - 2] == Hex(b[..|b| - 1]);
      HexInjective(a[..|a| - 1], b[..|b| - 1]);
      assert x == y;
      assert a == a[..|a| - 1] + [x] && b == b[..|b| - 1] + [y];
    }
  }
}
