/** The regular-expression matcher of grep.c, proved sound and complete against the language its
    patterns denote. */
module Grep {

  /** A C string: its characters before the terminating NUL. */
  type CString = s: string | '\0' !in s

  /** s[i] through a char pointer: NUL at the end. */
  function At(s: CString, i: nat): (c: char)
    requires i <= |s|
  {
    if i < |s| then s[i] else '\0'
  }

  // ----- what a pattern denotes ---------------------------------------------------------------

  datatype Token = One(c: char) | Star(c: char)

  /** The items of a pattern without its leading ^: c* is a star whatever c is, a lone $ at the end
      is an anchor and no item, every other character stands for itself, or for any if it is a dot. */
  function Tokens(re: CString): (toks: seq<Token>)
  {
    if re == [] then []
    else if |re| >= 2 && re[1] == '*' then [Star(re[0])] + Tokens(re[2..])
    else if re == "$" then []
    else [One(re[0])] + Tokens(re[1..])
  }

  predicate EndAnchored(re: CString)
  {
    if re == [] then false
    else if |re| >= 2 && re[1] == '*' then EndAnchored(re[2..])
    else re == "$" || EndAnchored(re[1..])
  }

  predicate Fits(c: char, x: char) { c == '.' || c == x }

  /** The strings an item matches. */
  predicate TokenMatches(t: Token, piece: string)
  {
    match t
    case One(c) => |piece| == 1 && Fits(c, piece[0])
    case Star(c) => forall i :: 0 <= i < |piece| ==> Fits(c, piece[i])
  }

  function Concat(pieces: seq<string>): (s: string)
  {
    if pieces == [] then [] else pieces[0] + Concat(pieces[1..])
  }

  /** s is cut into one matching piece per item. */
  predicate Splits(toks: seq<Token>, pieces: seq<string>, s: string)
  {
    |pieces| == |toks| && Concat(pieces) == s && forall i :: 0 <= i < |toks| ==> TokenMatches(toks[i], pieces[i])
  }

  ghost predicate InLanguage(toks: seq<Token>, s: string)
  {
    exists pieces :: Splits(toks, pieces, s)
  }

  /** Some prefix of the text is in the language; all of it if the pattern ends in $. */
  ghost predicate PrefixMatches(re: CString, text: CString)
  {
    exists j :: 0 <= j <= |text| && (EndAnchored(re) ==> j == |text|) && InLanguage(Tokens(re), text[..j])
  }

  /** The pattern's match somewhere in the text, or at its start if it begins with ^. */
  ghost predicate Denotes(re: CString, text: CString)
  {
    if re != [] && re[0] == '^' then PrefixMatches(re[1..], text)
    else exists i :: 0 <= i <= |text| && PrefixMatches(re, text[i..])
  }

  // ----- how the language unfolds -------------------------------------------------------------

  lemma LanguageEmpty(s: string)
    ensures InLanguage([], s) <==> s == []
  {
    if s == [] {
      assert Splits([], [], s);
    }
  }

  lemma LanguageOne(c: char, toks: seq<Token>, s: string)
    ensures InLanguage([One(c)] + toks, s) <==> s != [] && Fits(c, s[0]) && InLanguage(toks, s[1..])
  {
    if pieces :| Splits([One(c)] + toks, pieces, s) {
      assert TokenMatches(([One(c)] + toks)[0], pieces[0]);
      assert s == pieces[0] + Concat(pieces[1..]) && s[1..] == Concat(pieces[1..]);
      assert forall i :: 0 <= i < |toks| ==> TokenMatches(([One(c)] + toks)[i + 1], pieces[1..][i]);
      assert Splits(toks, pieces[1..], s[1..]);
    }
    if s != [] && Fits(c, s[0]) && InLanguage(toks, s[1..]) {
      var rest :| Splits(toks, rest, s[1..]);
      var pieces := [[s[0]]] + rest;
      assert pieces[1..] == rest && s == [s[0]] + s[1..];
      assert Splits([One(c)] + toks, pieces, s);
    }
  }

  /** A string matched by c* and more starts with a c to spare, or leaves the star unused. */
  lemma StarSplits(c: char, toks: seq<Token>, pieces: seq<string>, s: string)
    requires Splits([Star(c)] + toks, pieces, s)
    ensures InLanguage(toks, s) || (s != [] && Fits(c, s[0]) && InLanguage([Star(c)] + toks, s[1..]))
  {
    var all, rest := [Star(c)] + toks, pieces[1..];
    assert forall i :: 0 <= i < |toks| ==> TokenMatches(all[i + 1], rest[i]);
    assert TokenMatches(all[0], pieces[0]) && s == pieces[0] + Concat(rest);
    if pieces[0] == [] {
      assert s == Concat(rest);
      assert Splits(toks, rest, s);
    } else {
      var shorter := [pieces[0][1..]] + rest;
      assert shorter[1..] == rest && s[1..] == pieces[0][1..] + Concat(rest);
      assert Splits(all, shorter, s[1..]);
    }
  }

  lemma StarUnused(c: char, toks: seq<Token>, s: string)
    requires InLanguage(toks, s)
    ensures InLanguage([Star(c)] + toks, s)
  {
    var rest :| Splits(toks, rest, s);
    var pieces := [[]] + rest;
    assert pieces[1..] == rest && s == [] + s;
    assert Splits([Star(c)] + toks, pieces, s);
  }

  lemma StarOnceMore(c: char, toks: seq<Token>, s: string)
    requires s != [] && Fits(c, s[0]) && InLanguage([Star(c)] + toks, s[1..])
    ensures InLanguage([Star(c)] + toks, s)
  {
    var all := [Star(c)] + toks;
    var shorter :| Splits(all, shorter, s[1..]);
    assert TokenMatches(all[0], shorter[0]);
    var pieces := [[s[0]] + shorter[0]] + shorter[1..];
    assert pieces[1..] == shorter[1..] && s == [s[0]] + s[1..];
    assert forall i :: 1 <= i < |all| ==> pieces[i] == shorter[i];
    assert Splits(all, pieces, s);
  }

  lemma LanguageStar(c: char, toks: seq<Token>, s: string)
    ensures InLanguage([Star(c)] + toks, s) <==>
            InLanguage(toks, s) || (s != [] && Fits(c, s[0]) && InLanguage([Star(c)] + toks, s[1..]))
  {
    if pieces :| Splits([Star(c)] + toks, pieces, s) {
      StarSplits(c, toks, pieces, s);
    } else if InLanguage(toks, s) {
      StarUnused(c, toks, s);
    } else if s != [] && Fits(c, s[0]) && InLanguage([Star(c)] + toks, s[1..]) {
      StarOnceMore(c, toks, s);
    }
  }

  // ----- how prefix matching unfolds ----------------------------------------------------------

  lemma PrefixEmptyPattern(text: CString)
    ensures PrefixMatches([], text)
  {
    LanguageEmpty(text[..0]);
  }

  lemma PrefixDollar(text: CString)
    ensures PrefixMatches("$", text) <==> text == []
  {
    LanguageEmpty(text[..|text|]);
    assert Tokens("$") == [];
  }

  lemma PrefixOne(re: CString, text: CString)
    requires re != [] && !(|re| >= 2 && re[1] == '*') && re != "$"
    ensures PrefixMatches(re, text) <==> text != [] && Fits(re[0], text[0]) && PrefixMatches(re[1..], text[1..])
  {
    forall j | 0 <= j <= |text|
      ensures InLanguage(Tokens(re), text[..j]) <==>
              j > 0 && Fits(re[0], text[0]) && InLanguage(Tokens(re[1..]), text[1..][..j - 1])
    {
      LanguageOne(re[0], Tokens(re[1..]), text[..j]);
      if j > 0 {
        assert text[..j][1..] == text[1..][..j - 1];
      }
    }
    if text != [] && Fits(re[0], text[0]) && PrefixMatches(re[1..], text[1..]) {
      var k :| 0 <= k < |text| && (EndAnchored(re[1..]) ==> k == |text| - 1)
        && InLanguage(Tokens(re[1..]), text[1..][..k]);
      assert InLanguage(Tokens(re), text[..k + 1]);
    }
  }

  lemma PrefixStar(re: CString, text: CString)
    requires |re| >= 2 && re[1] == '*'
    ensures PrefixMatches(re, text) <==>
            PrefixMatches(re[2..], text) || (text != [] && Fits(re[0], text[0]) && PrefixMatches(re, text[1..]))
  {
    forall j | 0 <= j <= |text|
      ensures InLanguage(Tokens(re), text[..j]) <==>
              || InLanguage(Tokens(re[2..]), text[..j])
              || (j > 0 && Fits(re[0], text[0]) && InLanguage(Tokens(re), text[1..][..j - 1]))
    {
      LanguageStar(re[0], Tokens(re[2..]), text[..j]);
      if j > 0 {
        assert text[..j][1..] == text[1..][..j - 1];
      }
    }
    if text != [] && Fits(re[0], text[0]) && PrefixMatches(re, text[1..]) {
      var k :| 0 <= k < |text| && (EndAnchored(re) ==> k == |text| - 1) && InLanguage(Tokens(re), text[1..][..k]);
      assert InLanguage(Tokens(re), text[..k + 1]);
    }
  }

  // ----- the matcher --------------------------------------------------------------------------

  /** matchhere(re + r, text + t) */
  method MatchHere(re: CString, r: nat, text: CString, t: nat) returns (m: bool)
    requires r <= |re| && t <= |text|
    ensures m <==> PrefixMatches(re[r..], text[t..])
    decreases |re| - r, 0
  {
    if At(re, r) == '\0' {
      PrefixEmptyPattern(text[t..]);
      return true;
    }
    if At(re, r + 1) == '*' {
      m := MatchStar(re, r, text, t);
      return;
    }
    if At(re, r) == '$' && At(re, r + 1) == '\0' {
      assert re[r..] == "$";
      PrefixDollar(text[t..]);
      return At(text, t) == '\0';
    }
    PrefixOne(re[r..], text[t..]);
    if At(text, t) != '\0' && (At(re, r) == '.' || At(re, r) == At(text, t)) {
      assert re[r..][1..] == re[r + 1..] && text[t..][1..] == text[t + 1..];
      m := MatchHere(re, r + 1, text, t + 1);
      return;
    }
    return false;
  }

  /** matchstar(re[r], re + r + 2, text + t) */
  method MatchStar(re: CString, r: nat, text: CString, t: nat) returns (m: bool)
    requires r + 2 <= |re| && re[r + 1] == '*' && t <= |text|
    ensures m <==> PrefixMatches(re[r..], text[t..])
    decreases |re| - r - 2, 1
  {
    var i := t;
    assert re[r..][2..] == re[r + 2..];
    while true
      invariant t <= i <= |text|
      invariant PrefixMatches(re[r..], text[t..]) <==> PrefixMatches(re[r..], text[i..])
      decreases |text| - i
    {
      PrefixStar(re[r..], text[i..]);
      m := MatchHere(re, r + 2, text, i);
      if m || At(text, i) == '\0' || !(At(text, i) == re[r] || re[r] == '.') {
        return;
      }
      assert text[i..][1..] == text[i + 1..];
      i := i + 1;
    }
  }

  /** match: 1 exactly when the pattern denotes a match in the text. */
  method Match(re: CString, text: CString) returns (m: bool)
    ensures m <==> Denotes(re, text)
  {
    if At(re, 0) == '^' {
      assert text[0..] == text;
      m := MatchHere(re, 1, text, 0);
      return;
    }
    assert re[0..] == re;
    var i := 0;
    while true
      invariant 0 <= i <= |text|
      invariant forall k :: 0 <= k < i ==> !PrefixMatches(re, text[k..])
      decreases |text| - i
    {
      m := MatchHere(re, 0, text, i);
      if m || At(text, i) == '\0' {
        return;
      }
      i := i + 1;
    }
  }
}
