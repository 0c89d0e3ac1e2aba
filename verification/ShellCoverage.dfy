/** No word of an accepted line is lost: every word character of the line belongs to a word of the tree
    that sh.c's parser makes of it. */
module ShellCoverage {
  import opened ShellGrammar
  import opened ShellWords

  predicate InSpan(w: Span, x: nat) { w.q <= x < w.eq }

  ghost predicate InArgs(args: seq<Span>, x: nat) { exists k :: 0 <= k < |args| && InSpan(args[k], x) }

  ghost predicate InFiles(files: seq<File>, x: nat) { exists k :: 0 <= k < |files| && InSpan(files[k].name, x) }

  /** Character x is in some word of the tree. */
  ghost predicate Covered(c: Cmd<Span>, x: nat)
  {
    match c
    case Exec(argv) => InArgs(argv, x)
    case Redir(d, file, _, _) => Covered(d, x) || InSpan(file, x)
    case Pipe(l, r) => Covered(l, x) || Covered(r, x)
    case List(l, r) => Covered(l, x) || Covered(r, x)
    case Back(d) => Covered(d, x)
  }

  lemma {:induction false} OnlySpaceSkipped(s: string, i: nat, x: nat)
    requires i <= |s| && i <= x < SkipSpace(s, i)
    ensures x < |s| && IsSpace(s[x])
    decreases |s| - i
  {
    if i < x { OnlySpaceSkipped(s, i + 1, x); }
  }

  /** A word character passed by gettoken is in the word it returns. */
  lemma TokenCovers(s: string, i: nat, x: nat)
    requires NUL !in s && i <= |s| && i <= x < GetToken(s, i).next && x < |s| && IsWordChar(s[x])
    ensures GetToken(s, i).kind == 'a' && InSpan(Span(GetToken(s, i).q, GetToken(s, i).eq), x)
  {
    var t := GetToken(s, i);
    if x < t.q {
      OnlySpaceSkipped(s, i, x);
    } else if x >= t.eq {
      OnlySpaceSkipped(s, t.eq, x);
    }
  }

  lemma NoneSkipped(s: string, i: nat, x: nat)
    requires i <= |s| && i <= x < SkipSpace(s, i) && x < |s|
    ensures !IsWordChar(s[x])
  {
    OnlySpaceSkipped(s, i, x);
  }

  lemma {:induction false} RedirsCover(s: string, i: nat, x: nat)
    requires NUL !in s && i <= |s| && ParseRedirs(s, i).Ok? && i <= x < ParseRedirs(s, i).pos && IsWordChar(s[x])
    ensures InFiles(ParseRedirs(s, i).value, x)
    decreases |s| - i
  {
    var j := SkipSpace(s, i);
    var r := ParseRedirs(s, i);
    if x < j {
      NoneSkipped(s, i, x);
    } else {
      var t := GetToken(s, j);
      var f := GetToken(s, t.next);
      if x < t.next {
        TokenCovers(s, j, x);
      } else if x < f.next {
        TokenCovers(s, t.next, x);
        assert InSpan(r.value[0].name, x);
      } else {
        RedirsCover(s, f.next, x);
        var more := ParseRedirs(s, f.next).value;
        var k :| 0 <= k < |more| && InSpan(more[k].name, x);
        assert r.value[k + 1] == more[k];
      }
    }
  }

  lemma {:induction false} WrapCovers(c: Cmd<Span>, files: seq<File>, x: nat)
    requires Covered(c, x) || InFiles(files, x)
    ensures Covered(Wrap(c, files), x)
  {
    if files != [] {
      var n := |files| - 1;
      if !InSpan(files[n].name, x) {
        if !Covered(c, x) {
          var k :| 0 <= k < |files| && InSpan(files[k].name, x);
          assert InSpan(files[..n][k].name, x);
        }
        WrapCovers(c, files[..n], x);
      }
    }
  }

  lemma {:induction false} ArgsCover(s: string, i: nat, args: seq<Span>, files: seq<File>, x: nat)
    requires NUL !in s && i <= |s| && ParseArgs(s, i, args, files).Ok?
    requires (i <= x < ParseArgs(s, i, args, files).pos && IsWordChar(s[x])) || InArgs(args, x) || InFiles(files, x)
    ensures Covered(ParseArgs(s, i, args, files).value, x)
    decreases |s| - i
  {
    var j := SkipSpace(s, i);
    var t := GetToken(s, j);
    if i <= x < j { NoneSkipped(s, i, x); }
    if Peeks(s, i, {'|', ')', '&', ';'}) || t.kind == NUL {
      if t.kind == NUL && j <= x < t.next && x < |s| && IsWordChar(s[x]) { TokenCovers(s, j, x); }
      WrapCovers(Exec(args), files, x);
    } else {
      ArgStepCovers(s, i, args, files, ParseArgs(s, i, args, files).pos, x);
      var more := ParseRedirs(s, t.next);
      ArgsCover(s, more.pos, args + [Span(t.q, t.eq)], files + more.value, x);
    }
  }

  lemma ArgStepCovers(s: string, i: nat, args: seq<Span>, files: seq<File>, hi: nat, x: nat)
    requires NUL !in s && i <= |s| && hi <= |s| && !Peeks(s, i, {'|', ')', '&', ';'})
    requires var t := GetToken(s, SkipSpace(s, i)); t.kind == 'a' && ParseRedirs(s, t.next).Ok?
    requires (i <= x < hi && IsWordChar(s[x])) || InArgs(args, x) || InFiles(files, x)
    ensures var t := GetToken(s, SkipSpace(s, i)); var more := ParseRedirs(s, t.next);
            (more.pos <= x < hi && IsWordChar(s[x])) || InArgs(args + [Span(t.q, t.eq)], x)
              || InFiles(files + more.value, x)
  {
    var j := SkipSpace(s, i);
    var t := GetToken(s, j);
    var more := ParseRedirs(s, t.next);
    var args', files' := args + [Span(t.q, t.eq)], files + more.value;
    if k :| 0 <= k < |args| && InSpan(args[k], x) {
      assert InSpan(args'[k], x);
    } else if k :| 0 <= k < |files| && InSpan(files[k].name, x) {
      assert InSpan(files'[k].name, x);
    } else if x < j {
      NoneSkipped(s, i, x);
    } else if x < t.next {
      TokenCovers(s, j, x);
      assert InSpan(args'[|args|], x);
    } else if x < more.pos {
      RedirsCover(s, t.next, x);
      var k :| 0 <= k < |more.value| && InSpan(more.value[k].name, x);
      assert files'[|files| + k] == more.value[k];
    }
  }

  lemma {:induction false} ExecCovers(s: string, i: nat, x: nat)
    requires NUL !in s && i <= |s| && ParseExec(s, i).Ok? && i <= x < ParseExec(s, i).pos && IsWordChar(s[x])
    ensures Covered(ParseExec(s, i).value, x)
    decreases |s| - i, 1
  {
    var j := SkipSpace(s, i);
    if x < j {
      NoneSkipped(s, i, x);
    } else if Peeks(s, i, {'('}) {
      BlockCovers(s, j, x);
    } else {
      var files := ParseRedirs(s, j);
      if x < files.pos { RedirsCover(s, j, x); }
      ArgsCover(s, files.pos, [], files.value, x);
    }
  }

  lemma {:induction false} BlockCovers(s: string, i: nat, x: nat)
    requires NUL !in s && i <= |s| && ParseBlock(s, i).Ok? && i <= x < ParseBlock(s, i).pos && IsWordChar(s[x])
    ensures Covered(ParseBlock(s, i).value, x)
    decreases |s| - i, 0
  {
    var open := GetToken(s, i);
    var c := ParseLine(s, open.next);
    var close := GetToken(s, c.pos);
    var files := ParseRedirs(s, close.next);
    if x < open.next {
      TokenCovers(s, i, x);
    } else if x < c.pos {
      LineCovers(s, open.next, x);
      WrapCovers(c.value, files.value, x);
    } else if x < close.next {
      TokenCovers(s, c.pos, x);
    } else {
      RedirsCover(s, close.next, x);
      WrapCovers(c.value, files.value, x);
    }
  }

  lemma {:induction false} PipeCovers(s: string, i: nat, x: nat)
    requires NUL !in s && i <= |s| && ParsePipe(s, i).Ok? && i <= x < ParsePipe(s, i).pos && IsWordChar(s[x])
    ensures Covered(ParsePipe(s, i).value, x)
    decreases |s| - i, 2
  {
    var c := ParseExec(s, i);
    if x < c.pos {
      ExecCovers(s, i, x);
    } else if !Peeks(s, c.pos, {'|'}) {
      NoneSkipped(s, c.pos, x);
    } else if x < GetToken(s, c.pos).next {
      TokenCovers(s, c.pos, x);
    } else {
      PipeCovers(s, GetToken(s, c.pos).next, x);
    }
  }

  lemma {:induction false} BacksCover(s: string, i: nat, c: Cmd<Span>, x: nat)
    requires NUL !in s && i <= |s|
    requires Covered(c, x) || (i <= x < ParseBacks(s, i, c).1 && IsWordChar(s[x]))
    ensures Covered(ParseBacks(s, i, c).0, x)
    decreases |s| - i
  {
    if Peeks(s, i, {'&'}) {
      if !Covered(c, x) && x < GetToken(s, i).next { TokenCovers(s, i, x); }
      BacksCover(s, GetToken(s, i).next, Back(c), x);
    } else if !Covered(c, x) {
      NoneSkipped(s, i, x);
    }
  }

  lemma {:induction false} LineCovers(s: string, i: nat, x: nat)
    requires NUL !in s && i <= |s| && ParseLine(s, i).Ok? && i <= x < ParseLine(s, i).pos && IsWordChar(s[x])
    ensures Covered(ParseLine(s, i).value, x)
    decreases |s| - i, 3
  {
    var c := ParsePipe(s, i);
    var (d, p) := ParseBacks(s, c.pos, c.value);
    if x < p {
      if x < c.pos { PipeCovers(s, i, x); }
      BacksCover(s, c.pos, c.value, x);
    } else if x < GetToken(s, p).next {
      TokenCovers(s, p, x);
    } else {
      LineCovers(s, GetToken(s, p).next, x);
    }
  }

  /** A character of an accepted line is a word character exactly if it is in a word of its tree. */
  lemma AcceptedCovers(s: string, x: nat)
    requires NUL !in s && ParseCmd(s).Ok? && x < |s|
    ensures IsWordChar(s[x]) <==> Covered(ParseCmd(s).value, x)
  {
    LineWords(s, 0);
    if IsWordChar(s[x]) {
      var pos := ParseLine(s, 0).pos;
      if x < pos {
        LineCovers(s, 0, x);
      } else {
        NoneSkipped(s, pos, x);
      }
    } else {
      NotInWords(s, ParseCmd(s).value, x);
    }
  }

  lemma {:induction false} NotInWords(s: string, c: Cmd<Span>, x: nat)
    requires WordsOk(s, c) && x < |s| && !IsWordChar(s[x])
    ensures !Covered(c, x)
  {
    match c
    case Exec(argv) =>
      forall k | 0 <= k < |argv|
        ensures !InSpan(argv[k], x)
      {
        assert IsWord(s, argv[k]);
      }
    case Redir(d, _, _, _) => NotInWords(s, d, x);
    case Pipe(l, r) => NotInWords(s, l, x); NotInWords(s, r, x);
    case List(l, r) => NotInWords(s, l, x); NotInWords(s, r, x);
    case Back(d) => NotInWords(s, d, x);
  }
}
