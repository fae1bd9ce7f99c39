/**
 * Account-ID validation and the parent relation. Strings are sequences of Unicode characters; their
 * length in the source is that of the UTF-8 form. Base58Check and segwit decoding belong to
 * libraries and are parameters.
 */
module AccountId {
  import opened Options
  import opened AccountIdGrammar

  const MIN_LEN: nat := 2
  const MAX_LEN: nat := 64

  datatype ErrorKind = TooLong | TooShort | RedundantSeparator | InvalidChar
  datatype ParseError = ParseError(kind: ErrorKind, at: Option<(nat, char)>)

  function Utf8Width(c: char): nat {
    var n := c as int;
    if n < 0x80 then 1 else if n < 0x800 then 2 else if n < 0x10000 then 3 else 4
  }

  function Utf8Len(s: string): nat {
    if s == [] then 0 else Utf8Len(s[..|s| - 1]) + Utf8Width(s[|s| - 1])
  }

  /** How many bytes the characters at the edges of the four ranges take. */
  lemma Utf8Widths()
    ensures Utf8Len("a") == 1 && Utf8Len("\U{7F}") == 1 && Utf8Len("\U{80}") == 2 && Utf8Len("\U{7FF}") == 2
    ensures Utf8Len("\U{800}") == 3 && Utf8Len("\U{FFFF}") == 3 && Utf8Len("\U{10000}") == 4
  {
    OneChar('a');
    OneChar('\U{7F}');
    OneChar('\U{80}');
    OneChar('\U{7FF}');
    OneChar('\U{800}');
    OneChar('\U{FFFF}');
    OneChar('\U{10000}');
  }

  lemma OneChar(c: char)
    ensures Utf8Len([c]) == Utf8Width(c)
  {
    assert [c][..0] == [];
  }

  lemma {:induction false} LenOfAllowed(s: string)
    requires forall i :: 0 <= i < |s| ==> Allowed(s[i])
    ensures Utf8Len(s) == |s|
  {
    if s != [] {
      LenOfAllowed(s[..|s| - 1]);
    }
  }

  lemma LenOfWellFormed(s: string)
    requires WellFormed(s)
    ensures Utf8Len(s) == |s|
  {
    forall i | 0 <= i < |s| ensures Allowed(s[i]) {
      assert GoodAt(s, i);
    }
    LenOfAllowed(s);
  }

  // ---------------------------------------------------------------------------
  // Bitcoin addresses
  // ---------------------------------------------------------------------------

  predicate AllAlnum(s: string) {
    forall i :: 0 <= i < |s| ==> InClass(s[i], Alnum)
  }

  /** Lowercased addresses of older chain states; lengths are in bytes. */
  predicate IsLegacyLowercasedBitcoin(s: string) {
    var len := Utf8Len(s);
    if "bc1q" <= s && 42 <= len <= 62 then AllAlnum(s)
    else if "bc1p" <= s && len == 62 then AllAlnum(s)
    else if "1" <= s && 25 <= len <= 34 then AllAlnum(s)
    else if "3" <= s && 33 <= len <= 34 then AllAlnum(s)
    else false
  }

  predicate IsBitcoinImplicit(s: string, base58check: string -> bool, segwit: string -> bool) {
    base58check(s) || segwit(s) || IsLegacyLowercasedBitcoin(s)
  }

  /** The legacy ids, by their characters. */
  lemma LegacyIff(s: string)
    ensures IsLegacyLowercasedBitcoin(s) <==>
              && (forall i :: 0 <= i < |s| ==> 'a' <= s[i] <= 'z' || '0' <= s[i] <= '9')
              && (|| ("bc1q" <= s && 42 <= |s| <= 62)
                  || ("bc1p" <= s && |s| == 62)
                  || ("1" <= s && 25 <= |s| <= 34)
                  || ("3" <= s && 33 <= |s| <= 34))
  {
    if forall i :: 0 <= i < |s| ==> 'a' <= s[i] <= 'z' || '0' <= s[i] <= '9' {
      LenOfAllowed(s);
    }
  }

  /** The legacy form adds nothing to the grammar. */
  lemma LegacyInGrammar(s: string)
    requires IsLegacyLowercasedBitcoin(s)
    ensures Matches(ID, s)
  {
    assert s != [];
    assert AllAlnum(s);
    forall i | 0 <= i < |s| ensures GoodAt(s, i) {
      assert InClass(s[i], Alnum);
    }
    assert InClass(s[|s| - 1], Alnum);
    Ids(s);
  }

  // ---------------------------------------------------------------------------
  // Validation
  // ---------------------------------------------------------------------------

  /** What an error reports: the first character at which the scan cannot go on, or a trailing separator. */
  ghost predicate ErrorAt(s: string, e: ParseError) {
    match e.kind
    case TooShort => Utf8Len(s) < MIN_LEN && e.at.None?
    case TooLong => Utf8Len(s) > MAX_LEN && e.at.None?
    case InvalidChar =>
      e.at.Some? && var (i, c) := e.at.value; i < |s| && s[i] == c && StartsWell(s[..i]) && !Allowed(c)
    case RedundantSeparator =>
      e.at.Some? && var (i, c) := e.at.value;
      && i < |s| && s[i] == c && StartsWell(s[..i]) && Sep(c)
      && (i == 0 || Sep(s[i - 1]) || i == |s| - 1)
  }

  /** The language of `validate`. */
  ghost predicate Accepted(s: string, base58check: string -> bool, segwit: string -> bool) {
    MIN_LEN <= Utf8Len(s) <= MAX_LEN && (base58check(s) || segwit(s) || Matches(ID, s))
  }

  /**
   * The one-pass loop accepts, within the length bounds, canonical Bitcoin addresses and exactly
   * the strings of the documented regular expression, and reports the first offence otherwise.
   */
  method Validate(s: string, base58check: string -> bool, segwit: string -> bool) returns (r: Option<ParseError>)
    ensures r.None? <==> Accepted(s, base58check, segwit)
    ensures r.Some? ==> ErrorAt(s, r.value)
  {
    Ids(s);
    if Utf8Len(s) < MIN_LEN {
      return Some(ParseError(TooShort, None));
    } else if Utf8Len(s) > MAX_LEN {
      return Some(ParseError(TooLong, None));
    } else if IsBitcoinImplicit(s, base58check, segwit) {
      if IsLegacyLowercasedBitcoin(s) {
        LegacyInGrammar(s);
      }
      return None;
    }
    var lastIsSeparator := true;
    var this': Option<(nat, char)> := None;
    for i := 0 to |s|
      invariant StartsWell(s[..i])
      invariant lastIsSeparator == (i == 0 || Sep(s[i - 1]))
      invariant this' == if i == 0 then None else Some((i - 1, s[i - 1]))
    {
      this' := Some((i, s[i]));
      if !Allowed(s[i]) {
        assert !GoodAt(s, i);
        return Some(ParseError(InvalidChar, this'));
      }
      var currentIsSeparator := Sep(s[i]);
      if currentIsSeparator && lastIsSeparator {
        assert !GoodAt(s, i);
        return Some(ParseError(RedundantSeparator, this'));
      }
      lastIsSeparator := currentIsSeparator;
      PrefixGrows(s, i);
    }
    assert s[..|s|] == s;
    if lastIsSeparator {
      PrefixShrinks(s);
      return Some(ParseError(RedundantSeparator, this'));
    }
    return None;
  }

  lemma PrefixGrows(s: string, i: nat)
    requires i < |s| && StartsWell(s[..i]) && GoodAt(s, i)
    ensures StartsWell(s[..i + 1])
  {
    var t := s[..i + 1];
    forall j | 0 <= j < |t| ensures GoodAt(t, j) {
      if j < i {
        assert GoodAt(s[..i], j);
      }
    }
  }

  lemma PrefixShrinks(s: string)
    requires s != [] && StartsWell(s)
    ensures StartsWell(s[..|s| - 1])
  {
    var t := s[..|s| - 1];
    forall j | 0 <= j < |t| ensures GoodAt(t, j) {
      assert GoodAt(s, j);
    }
  }

  /** The recursive check used for constants; a panic is `false`. */
  predicate ValidateFormatConst(id: string, idx: nat, currentIsSeparator: bool)
    requires idx <= |id|
    decreases |id| - idx
  {
    if idx == |id| then !currentIsSeparator
    else if InClass(id[idx], Alnum) then ValidateFormatConst(id, idx + 1, false)
    else if Sep(id[idx]) then !currentIsSeparator && idx != 0 && ValidateFormatConst(id, idx + 1, true)
    else false
  }

  predicate ValidateConst(s: string) {
    MIN_LEN <= Utf8Len(s) <= MAX_LEN && ValidateFormatConst(s, 0, false)
  }

  lemma {:induction false} FormatConstScans(id: string, idx: nat)
    requires idx <= |id| && StartsWell(id[..idx])
    ensures ValidateFormatConst(id, idx, idx > 0 && Sep(id[idx - 1]))
            <==> StartsWell(id) && (id == [] || !Sep(id[|id| - 1]))
    decreases |id| - idx
  {
    if idx == |id| {
      assert id[..idx] == id;
    } else if GoodAt(id, idx) {
      PrefixGrows(id, idx);
      FormatConstScans(id, idx + 1);
    }
  }

  /** The recursive check and the loop agree on the grammar; only the loop also takes canonical Bitcoin addresses. */
  lemma ValidateConstIsGrammar(s: string)
    ensures ValidateConst(s) <==> MIN_LEN <= Utf8Len(s) <= MAX_LEN && Matches(ID, s)
  {
    assert s[..0] == [];
    FormatConstScans(s, 0);
    Ids(s);
    if s == [] {
      assert Utf8Len(s) == 0;
    }
  }

  // ---------------------------------------------------------------------------
  // Parents
  // ---------------------------------------------------------------------------

  /** The part behind the first dot. */
  function Parent(s: string): (r: Option<string>)
    ensures r.None? <==> '.' !in s
    ensures r.Some? ==> |r.value| < |s|
  {
    if s == [] then None
    else if s[0] == '.' then Some(s[1..])
    else Parent(s[1..])
  }

  predicate IsSubAccountOf(s: string, parent: string) {
    && |parent| < |s|
    && s[|s| - |parent|..] == parent
    && s[|s| - |parent| - 1] == '.'
    && '.' !in s[..|s| - |parent| - 1]
  }

  predicate IsTopLevel(s: string) {
    s != "system" && '.' !in s
  }

  lemma {:induction false} ParentSplits(s: string)
    requires Parent(s).Some?
    ensures var p := Parent(s).value;
            s[|s| - |p|..] == p && s[|s| - |p| - 1] == '.' && '.' !in s[..|s| - |p| - 1]
  {
    if s[0] != '.' {
      ParentSplits(s[1..]);
      var p := Parent(s).value;
      var t := s[1..];
      assert t[|t| - |p|..] == s[|s| - |p|..];
      assert s[..|s| - |p| - 1] == [s[0]] + t[..|t| - |p| - 1];
    }
  }

  /** For all strings: x is a sub-account of p exactly when p is the parent of x. */
  lemma SubAccountIffParent(x: string, p: string)
    ensures IsSubAccountOf(x, p) <==> Parent(x) == Some(p)
  {
    if IsSubAccountOf(x, p) {
      var k := |x| - |p| - 1;
      assert x[k] == '.' && '.' in x;
      ParentSplits(x);
      var q := Parent(x).value;
      var m := |x| - |q| - 1;
      assert k == m;
    }
    if Parent(x) == Some(p) {
      ParentSplits(x);
    }
  }

  /** The parent of a grammatical ID is grammatical, though it may be a single character. */
  lemma ParentInGrammar(x: string)
    requires Matches(ID, x) && Parent(x).Some?
    ensures Matches(ID, Parent(x).value)
  {
    Ids(x);
    ParentSplits(x);
    var p := Parent(x).value;
    var i := |x| - |p| - 1;
    WellFormedFront(x, i);
    assert x[i + 1..] == p;
    Ids(p);
  }

  /** Neither kind of Bitcoin address has a dot in it. */
  ghost predicate Dotless(base58check: string -> bool, segwit: string -> bool) {
    forall s: string :: base58check(s) || segwit(s) ==> '.' !in s
  }

  /** The only dot stands before the last character. */
  predicate EndsInOneCharLabel(x: string) {
    |x| >= 2 && x[|x| - 2] == '.' && '.' !in x[..|x| - 2]
  }

  lemma OneCharLabel(x: string)
    requires Parent(x).Some?
    ensures |Parent(x).value| == 1 <==> EndsInOneCharLabel(x)
  {
    ParentSplits(x);
    var i := |x| - |Parent(x).value| - 1;
    assert EndsInOneCharLabel(x) ==> i == |x| - 2;
  }

  /**
   * The parent is wrapped without being validated, under an assertion that `validate` accepts it.
   * For an accepted ID the assertion holds exactly unless its only dot stands before its last
   * character.
   */
  lemma ParentValidIff(x: string, base58check: string -> bool, segwit: string -> bool)
    requires Dotless(base58check, segwit) && Accepted(x, base58check, segwit) && Parent(x).Some?
    ensures Accepted(Parent(x).value, base58check, segwit) <==> !EndsInOneCharLabel(x)
  {
    var p := Parent(x).value;
    ParentSplits(x);
    assert '.' in x;
    ParentInGrammar(x);
    Ids(x);
    Ids(p);
    LenOfWellFormed(x);
    LenOfWellFormed(p);
    OneCharLabel(x);
  }

  lemma OneCharParent(base58check: string -> bool, segwit: string -> bool)
    ensures Accepted("a.b", base58check, segwit) && Parent("a.b") == Some("b") && !Accepted("b", base58check, segwit)
  {
    assert "a.b"[1..] == ".b" && ".b"[1..] == "b";
    assert Parent("a.b") == Parent(".b") == Some("b");
    var s := "a.b";
    assert StartsWell(s) by {
      assert GoodAt(s, 0) && GoodAt(s, 1) && GoodAt(s, 2);
    }
    Ids(s);
    LenOfWellFormed(s);
    assert Utf8Len("b") == Utf8Len("b"[..0]) + 1;
  }

  function DotCount(s: string): nat {
    if s == [] then 0 else (if s[0] == '.' then 1 else 0) + DotCount(s[1..])
  }

  /** `k` parent steps. */
  function Ancestor(s: string, k: nat): Option<string>
    decreases k
  {
    if k == 0 then Some(s)
    else match Parent(s)
      case None => None
      case Some(p) => Ancestor(p, k - 1)
  }

  lemma {:induction false} ParentDots(s: string)
    ensures Parent(s).None? <==> DotCount(s) == 0
    ensures Parent(s).Some? ==> DotCount(Parent(s).value) == DotCount(s) - 1
  {
    if s != [] && s[0] != '.' {
      ParentDots(s[1..]);
    }
  }

  /** Parent steps lead to a string without dots after exactly as many steps as there are dots, and no further. */
  lemma {:induction false} AncestorsEnd(s: string, k: nat)
    ensures k <= DotCount(s) ==> Ancestor(s, k).Some? && DotCount(Ancestor(s, k).value) == DotCount(s) - k
    ensures k > DotCount(s) ==> Ancestor(s, k).None?
    ensures k == DotCount(s) ==> (IsTopLevel(Ancestor(s, k).value) <==> Ancestor(s, k).value != "system")
    ensures k < DotCount(s) ==> !IsTopLevel(Ancestor(s, k).value)
    decreases k
  {
    if k > 0 {
      ParentDots(s);
      if Parent(s).Some? {
        AncestorsEnd(Parent(s).value, k - 1);
      }
    } else {
      ParentDots(s);
    }
  }

  /** Letters alone: accepted from two to sixty-four of them, and no more. */
  lemma LengthBounds(n: nat, base58check: string -> bool, segwit: string -> bool)
    ensures var s := seq(n, _ => 'a');
            && (ValidateConst(s) <==> 2 <= n <= 64)
            && (2 <= n <= 64 ==> Accepted(s, base58check, segwit))
            && (n < 2 || n > 64 ==> !Accepted(s, base58check, segwit))
  {
    var s := seq(n, _ => 'a');
    LenOfAllowed(s);
    ValidateConstIsGrammar(s);
    if n > 0 {
      assert WellFormed(s) by {
        forall i | 0 <= i < n
          ensures GoodAt(s, i)
        {
        }
      }
      Ids(s);
    }
  }
}
