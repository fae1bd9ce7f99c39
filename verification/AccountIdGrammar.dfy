/** The documented regular expression for account IDs, and the same language without one. */
module AccountIdGrammar {

  datatype CharClass = Alnum | Dash | Dot

  predicate InClass(c: char, k: CharClass) {
    match k
    case Alnum => 'a' <= c <= 'z' || '0' <= c <= '9'
    case Dash => c == '-' || c == '_'
    case Dot => c == '.'
  }

  datatype Regex = One(k: CharClass) | Cat(first: Regex, second: Regex) | Star(r: Regex)

  ghost predicate Matches(r: Regex, s: string)
    decreases r, |s|
  {
    match r
    case One(k) => |s| == 1 && InClass(s[0], k)
    case Cat(a, b) => exists i :: 0 <= i <= |s| && Matches(a, s[..i]) && Matches(b, s[i..])
    case Star(a) => s == [] || exists i :: 0 < i <= |s| && Matches(a, s[..i]) && Matches(Star(a), s[i..])
  }

  // /^(([a-z\d]+[-_])*[a-z\d]+\.)*([a-z\d]+[-_])*[a-z\d]+$/
  const WORD: Regex := Cat(One(Alnum), Star(One(Alnum)))
  const LABEL: Regex := Separated(WORD, Dash)
  const ID: Regex := Separated(LABEL, Dot)

  /** `(p c)* p` */
  function Separated(p: Regex, c: CharClass): Regex {
    Cat(Star(Cat(p, One(c))), p)
  }

  // ---------------------------------------------------------------------------
  // The language in terms of neighbouring characters
  // ---------------------------------------------------------------------------

  predicate Sep(c: char) {
    InClass(c, Dash) || InClass(c, Dot)
  }

  predicate Allowed(c: char) {
    InClass(c, Alnum) || Sep(c)
  }

  /** Allowed characters, none a separator at the start or behind another separator. */
  ghost predicate StartsWell(s: string) {
    forall i :: 0 <= i < |s| ==> GoodAt(s, i)
  }

  predicate GoodAt(s: string, i: nat)
    requires i < |s|
  {
    Allowed(s[i]) && (Sep(s[i]) ==> i > 0 && !Sep(s[i - 1]))
  }

  ghost predicate WellFormed(s: string) {
    s != [] && StartsWell(s) && !Sep(s[|s| - 1])
  }

  ghost predicate Only(s: string, k: CharClass) {
    forall i :: 0 <= i < |s| ==> InClass(s[i], k)
  }

  ghost predicate Without(s: string, k: CharClass) {
    forall i :: 0 <= i < |s| ==> !InClass(s[i], k)
  }

  const LETTERS: string := "abcdefghijklmnopqrstuvwxyz"
  const DIGITS: string := "0123456789"

  lemma Letters(c: char)
    ensures 'a' <= c <= 'z' <==> c in LETTERS
  {
    if 'a' <= c <= 'z' {
      assert LETTERS[c as int - 'a' as int] == c;
    }
  }

  lemma Numerals(c: char)
    ensures '0' <= c <= '9' <==> c in DIGITS
  {
    if '0' <= c <= '9' {
      assert DIGITS[c as int - '0' as int] == c;
    }
  }

  lemma Separators(c: char)
    ensures Sep(c) <==> c in "-_."
  {
    assert "-_."[0] == '-' && "-_."[1] == '_' && "-_."[2] == '.';
  }

  /** The alphabet, character by character. */
  lemma Alphabet(c: char)
    ensures InClass(c, Alnum) <==> c in LETTERS || c in DIGITS
    ensures Sep(c) <==> c in "-_."
  {
    Letters(c);
    Numerals(c);
    Separators(c);
  }

  lemma {:induction false} StarOfAlnum(s: string)
    ensures Matches(Star(One(Alnum)), s) <==> Only(s, Alnum)
    decreases |s|
  {
    if s != [] {
      if Matches(Star(One(Alnum)), s) {
        var i :| 0 < i <= |s| && Matches(One(Alnum), s[..i]) && Matches(Star(One(Alnum)), s[i..]);
        StarOfAlnum(s[i..]);
        assert forall j :: 0 < j < |s| ==> s[j] == s[1..][j - 1];
      }
      if Only(s, Alnum) {
        StarOfAlnum(s[1..]);
        assert Matches(One(Alnum), s[..1]) && Matches(Star(One(Alnum)), s[1..]);
      }
    }
  }

  lemma Words(s: string)
    ensures Matches(WORD, s) <==> s != [] && Only(s, Alnum)
  {
    if Matches(WORD, s) {
      var i :| 0 <= i <= |s| && Matches(One(Alnum), s[..i]) && Matches(Star(One(Alnum)), s[i..]);
      StarOfAlnum(s[1..]);
      assert forall j :: 0 < j < |s| ==> s[j] == s[1..][j - 1];
    }
    if s != [] && Only(s, Alnum) {
      StarOfAlnum(s[1..]);
      assert Matches(One(Alnum), s[..1]) && Matches(Star(One(Alnum)), s[1..]);
    }
  }

  /** Position of a separator at which a list splits into its first piece and a shorter list. */
  ghost predicate SplitsAt(p: Regex, c: CharClass, s: string, i: nat) {
    i < |s| && Matches(p, s[..i]) && InClass(s[i], c) && Matches(Separated(p, c), s[i + 1..])
  }

  lemma PieceAndSeparator(p: Regex, c: CharClass, s: string)
    ensures Matches(Cat(p, One(c)), s) <==> s != [] && Matches(p, s[..|s| - 1]) && InClass(s[|s| - 1], c)
  {
    if Matches(Cat(p, One(c)), s) {
      var i :| 0 <= i <= |s| && Matches(p, s[..i]) && Matches(One(c), s[i..]);
      assert i == |s| - 1;
    }
    if s != [] && Matches(p, s[..|s| - 1]) && InClass(s[|s| - 1], c) {
      assert Matches(One(c), s[|s| - 1..]);
    }
  }

  /** A list is one piece, or a piece, a separator and a list. */
  lemma Unroll(p: Regex, c: CharClass, s: string)
    ensures Matches(Separated(p, c), s) <==> Matches(p, s) || exists i: nat :: SplitsAt(p, c, s, i)
  {
    if Matches(Separated(p, c), s) {
      UnrollForward(p, c, s);
    }
    if Matches(p, s) {
      assert s[..0] == [] && s[0..] == s;
      assert Matches(Star(Cat(p, One(c))), s[..0]) && Matches(p, s[0..]);
    }
    if i: nat :| SplitsAt(p, c, s, i) {
      UnrollBackward(p, c, s, i);
    }
  }

  lemma Slices(s: string, j: nat, k: nat)
    requires j <= k <= |s|
    ensures s[..k][..j] == s[..j] && s[..k][j..] == s[j..][..k - j] && s[j..][k - j..] == s[k..]
  {
  }

  lemma CatIntro(a: Regex, b: Regex, s: string, i: nat)
    requires i <= |s| && Matches(a, s[..i]) && Matches(b, s[i..])
    ensures Matches(Cat(a, b), s)
  {
  }

  lemma CatElim(a: Regex, b: Regex, s: string) returns (i: nat)
    requires Matches(Cat(a, b), s)
    ensures i <= |s| && Matches(a, s[..i]) && Matches(b, s[i..])
  {
    i :| 0 <= i <= |s| && Matches(a, s[..i]) && Matches(b, s[i..]);
  }

  lemma StarIntro(a: Regex, s: string, i: nat)
    requires 0 < i <= |s| && Matches(a, s[..i]) && Matches(Star(a), s[i..])
    ensures Matches(Star(a), s)
  {
  }

  lemma StarElim(a: Regex, s: string) returns (i: nat)
    requires Matches(Star(a), s) && s != []
    ensures 0 < i <= |s| && Matches(a, s[..i]) && Matches(Star(a), s[i..])
  {
    i :| 0 < i <= |s| && Matches(a, s[..i]) && Matches(Star(a), s[i..]);
  }

  lemma UnrollForward(p: Regex, c: CharClass, s: string)
    requires Matches(Separated(p, c), s)
    ensures Matches(p, s) || exists i: nat :: SplitsAt(p, c, s, i)
  {
    hide Matches;
    var item := Cat(p, One(c));
    var k := CatElim(Star(item), p, s);
    if k == 0 {
      assert s[0..] == s;
    } else {
      var j := StarElim(item, s[..k]);
      Slices(s, j, k);
      PieceAndSeparator(p, c, s[..j]);
      Slices(s, j - 1, j);
      CatIntro(Star(item), p, s[j..], k - j);
      assert SplitsAt(p, c, s, j - 1);
    }
  }

  lemma UnrollBackward(p: Regex, c: CharClass, s: string, i: nat)
    requires SplitsAt(p, c, s, i)
    ensures Matches(Separated(p, c), s)
  {
    hide Matches;
    var item := Cat(p, One(c));
    var k := CatElim(Star(item), p, s[i + 1..]);
    var j := i + 1;
    Slices(s, j, j + k);
    Slices(s, i, j);
    PieceAndSeparator(p, c, s[..j]);
    StarIntro(item, s[..j + k], j);
    CatIntro(Star(item), p, s, j + k);
  }

  lemma WellFormedFront(s: string, i: nat)
    requires WellFormed(s) && i < |s| && Sep(s[i])
    ensures WellFormed(s[..i]) && WellFormed(s[i + 1..])
  {
    var a, b := s[..i], s[i + 1..];
    assert GoodAt(s, i) && i < |s| - 1 && GoodAt(s, i + 1);
    forall j | 0 <= j < |a| ensures GoodAt(a, j) {
      assert GoodAt(s, j);
    }
    forall j | 0 <= j < |b| ensures GoodAt(b, j) {
      assert GoodAt(s, i + 1 + j);
    }
  }

  lemma WellFormedJoin(s: string, i: nat)
    requires i < |s| && Sep(s[i]) && WellFormed(s[..i]) && WellFormed(s[i + 1..])
    ensures WellFormed(s)
  {
    var a, b := s[..i], s[i + 1..];
    assert s[i - 1] == a[|a| - 1];
    forall j | 0 <= j < |s| ensures GoodAt(s, j) {
      if j < i {
        assert GoodAt(a, j);
      } else if j > i {
        assert GoodAt(b, j - i - 1);
      }
    }
    assert s[|s| - 1] == b[|b| - 1];
  }

  lemma {:induction false} FirstOf(s: string, k: CharClass) returns (i: nat)
    requires !Without(s, k)
    ensures i < |s| && InClass(s[i], k) && Without(s[..i], k)
    decreases |s|
  {
    if InClass(s[0], k) {
      i := 0;
    } else {
      var t := s[1..];
      assert forall j :: 0 < j < |s| ==> s[j] == t[j - 1];
      var j := FirstOf(t, k);
      i := j + 1;
      assert forall m :: 0 < m < i ==> s[..i][m] == t[..j][m - 1];
    }
  }

  lemma {:induction false} Labels(s: string)
    ensures Matches(LABEL, s) <==> WellFormed(s) && Without(s, Dot)
    decreases |s|
  {
    Unroll(WORD, Dash, s);
    Words(s);
    forall i: nat | i < |s| && InClass(s[i], Dash)
      ensures SplitsAt(WORD, Dash, s, i)
              <==> i > 0 && Only(s[..i], Alnum) && WellFormed(s[i + 1..]) && Without(s[i + 1..], Dot)
    {
      Words(s[..i]);
      Labels(s[i + 1..]);
    }
    if i: nat :| SplitsAt(WORD, Dash, s, i) {
      LabelJoin(s, i);
    }
    if WellFormed(s) && Without(s, Dot) && !Only(s, Alnum) {
      LabelSplit(s);
    }
  }

  lemma LabelJoin(s: string, i: nat)
    requires i < |s| && InClass(s[i], Dash)
    requires i > 0 && Only(s[..i], Alnum) && WellFormed(s[i + 1..]) && Without(s[i + 1..], Dot)
    ensures WellFormed(s) && Without(s, Dot)
  {
    assert forall j :: 0 <= j < i ==> s[..i][j] == s[j];
    assert forall j :: i < j < |s| ==> s[j] == s[i + 1..][j - i - 1];
    WellFormedJoin(s, i);
  }

  lemma LabelSplit(s: string)
    requires WellFormed(s) && Without(s, Dot) && !Only(s, Alnum)
    ensures exists i: nat ::
              && i < |s| && InClass(s[i], Dash) && i > 0
              && Only(s[..i], Alnum) && WellFormed(s[i + 1..]) && Without(s[i + 1..], Dot)
  {
    assert !Without(s, Dash) by {
      var j :| 0 <= j < |s| && !InClass(s[j], Alnum);
      assert GoodAt(s, j);
    }
    var i := FirstOf(s, Dash);
    forall j | 0 <= j < i ensures InClass(s[..i][j], Alnum) {
      assert GoodAt(s, j) && !InClass(s[..i][j], Dash);
    }
    assert GoodAt(s, i);
    WellFormedFront(s, i);
  }

  /** The documented expression describes exactly the strings the one-pass check looks for. */
  lemma {:induction false} Ids(s: string)
    ensures Matches(ID, s) <==> WellFormed(s)
    decreases |s|
  {
    Unroll(LABEL, Dot, s);
    Labels(s);
    forall i: nat | i < |s| && InClass(s[i], Dot)
      ensures SplitsAt(LABEL, Dot, s, i) <==> WellFormed(s[..i]) && Without(s[..i], Dot) && WellFormed(s[i + 1..])
    {
      Labels(s[..i]);
      Ids(s[i + 1..]);
    }
    if i: nat :| SplitsAt(LABEL, Dot, s, i) {
      WellFormedJoin(s, i);
    }
    if WellFormed(s) && !Without(s, Dot) {
      var i := FirstOf(s, Dot);
      WellFormedFront(s, i);
      assert SplitsAt(LABEL, Dot, s, i);
    }
  }
}
