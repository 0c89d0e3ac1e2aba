/** Words of a parsed line, and nulterminate of sh.c, which cuts them out of the line in place. */
module ShellWords {
  import opened ShellGrammar

  /** A maximal run of word characters. */
  predicate IsWord(s: string, w: Span)
  {
    && w.q < w.eq <= |s| && !IsWordChar(CharAt(s, w.eq))
    && forall x :: w.q <= x < w.eq ==> IsWordChar(s[x])
  }

  /** The two ways a redirection opens its file. */
  predicate ModeOk(mode: nat, fd: nat) { (mode == O_RDONLY && fd == 0) || (mode == O_WRONLY_CREATE && fd == 1) }

  predicate FilesOk(s: string, files: seq<File>)
  {
    forall k :: 0 <= k < |files| ==> IsWord(s, files[k].name) && ModeOk(files[k].mode, files[k].fd)
  }

  predicate ArgsOk(s: string, args: seq<Span>)
  {
    |args| < MAXARGS && forall k :: 0 <= k < |args| ==> IsWord(s, args[k])
  }

  /** Every word of the tree is a word of the line, and no command has too many. */
  predicate WordsOk(s: string, c: Cmd<Span>)
  {
    match c
    case Exec(argv) => ArgsOk(s, argv)
    case Redir(d, file, mode, fd) => WordsOk(s, d) && IsWord(s, file) && ModeOk(mode, fd)
    case Pipe(l, r) => WordsOk(s, l) && WordsOk(s, r)
    case List(l, r) => WordsOk(s, l) && WordsOk(s, r)
    case Back(d) => WordsOk(s, d)
  }

  lemma TokenWord(s: string, i: nat)
    requires NUL !in s && i <= |s| && GetToken(s, i).kind == 'a'
    ensures IsWord(s, Span(GetToken(s, i).q, GetToken(s, i).eq))
  {
    WordEndIs(s, GetToken(s, i).q);
  }

  lemma {:induction false} RedirWords(s: string, i: nat)
    requires NUL !in s && i <= |s| && ParseRedirs(s, i).Ok?
    ensures FilesOk(s, ParseRedirs(s, i).value)
    decreases |s| - i
  {
    if Peeks(s, i, {'<', '>'}) {
      var t := GetToken(s, SkipSpace(s, i));
      var f := GetToken(s, t.next);
      TokenWord(s, t.next);
      RedirWords(s, f.next);
    }
  }

  lemma {:induction false} WrapWords(s: string, c: Cmd<Span>, files: seq<File>)
    requires WordsOk(s, c) && FilesOk(s, files)
    ensures WordsOk(s, Wrap(c, files))
  {
    if files != [] { WrapWords(s, c, files[..|files| - 1]); }
  }

  lemma {:induction false} ArgWords(s: string, i: nat, args: seq<Span>, files: seq<File>)
    requires NUL !in s && i <= |s| && ParseArgs(s, i, args, files).Ok? && ArgsOk(s, args) && FilesOk(s, files)
    ensures WordsOk(s, ParseArgs(s, i, args, files).value)
    decreases |s| - i
  {
    var j := SkipSpace(s, i);
    var t := GetToken(s, j);
    if Peeks(s, i, {'|', ')', '&', ';'}) || t.kind == NUL {
      WrapWords(s, Exec(args), files);
    } else {
      TokenWord(s, j);
      RedirWords(s, t.next);
      var more := ParseRedirs(s, t.next);
      ArgWords(s, more.pos, args + [Span(t.q, t.eq)], files + more.value);
    }
  }

  lemma {:induction false} ExecWords(s: string, i: nat)
    requires NUL !in s && i <= |s| && ParseExec(s, i).Ok?
    ensures WordsOk(s, ParseExec(s, i).value)
    decreases |s| - i, 1
  {
    if Peeks(s, i, {'('}) {
      BlockWords(s, SkipSpace(s, i));
    } else {
      RedirWords(s, SkipSpace(s, i));
      var files := ParseRedirs(s, SkipSpace(s, i));
      ArgWords(s, files.pos, [], files.value);
    }
  }

  lemma {:induction false} BlockWords(s: string, i: nat)
    requires NUL !in s && i <= |s| && ParseBlock(s, i).Ok?
    ensures WordsOk(s, ParseBlock(s, i).value)
    decreases |s| - i, 0
  {
    var c := ParseLine(s, GetToken(s, i).next);
    LineWords(s, GetToken(s, i).next);
    RedirWords(s, GetToken(s, c.pos).next);
    WrapWords(s, c.value, ParseRedirs(s, GetToken(s, c.pos).next).value);
  }

  lemma {:induction false} PipeWords(s: string, i: nat)
    requires NUL !in s && i <= |s| && ParsePipe(s, i).Ok?
    ensures WordsOk(s, ParsePipe(s, i).value)
    decreases |s| - i, 2
  {
    ExecWords(s, i);
    var pos := ParseExec(s, i).pos;
    if Peeks(s, pos, {'|'}) { PipeWords(s, GetToken(s, pos).next); }
  }

  lemma {:induction false} BackWords(s: string, i: nat, c: Cmd<Span>)
    requires i <= |s| && WordsOk(s, c)
    ensures WordsOk(s, ParseBacks(s, i, c).0)
    decreases |s| - i
  {
    if Peeks(s, i, {'&'}) { BackWords(s, GetToken(s, i).next, Back(c)); }
  }

  lemma {:induction false} LineWords(s: string, i: nat)
    requires NUL !in s && i <= |s| && ParseLine(s, i).Ok?
    ensures WordsOk(s, ParseLine(s, i).value)
    decreases |s| - i, 3
  {
    PipeWords(s, i);
    var c := ParsePipe(s, i);
    BackWords(s, c.pos, c.value);
    var p := ParseBacks(s, c.pos, c.value).1;
    if Peeks(s, p, {';'}) { LineWords(s, GetToken(s, p).next); }
  }

  // ----- nulterminate -------------------------------------------------------------------------

  /** x is where some word of the tree ends. */
  predicate EndsAt(c: Cmd<Span>, x: nat)
  {
    match c
    case Exec(argv) => exists k :: 0 <= k < |argv| && argv[k].eq == x
    case Redir(d, file, _, _) => EndsAt(d, x) || file.eq == x
    case Pipe(l, r) => EndsAt(l, x) || EndsAt(r, x)
    case List(l, r) => EndsAt(l, x) || EndsAt(r, x)
    case Back(d) => EndsAt(d, x)
  }

  /** Words end outside words. */
  lemma {:induction false} EndsOutside(s: string, c: Cmd<Span>, x: nat)
    requires WordsOk(s, c) && EndsAt(c, x)
    ensures x <= |s| && !IsWordChar(CharAt(s, x))
  {
    match c
    case Exec(argv) =>
    case Redir(d, _, _, _) => if EndsAt(d, x) { EndsOutside(s, d, x); }
    case Pipe(l, r) => if EndsAt(l, x) { EndsOutside(s, l, x); } else { EndsOutside(s, r, x); }
    case List(l, r) => if EndsAt(l, x) { EndsOutside(s, l, x); } else { EndsOutside(s, r, x); }
    case Back(d) => EndsOutside(s, d, x);
  }

  /** The buffer holds line s with its NUL and NULs at the ends of c's words. */
  ghost predicate Terminated(buf: seq<char>, s: string, c: Cmd<Span>)
  {
    |buf| == |s| + 1 && forall x: nat :: x <= |s| ==> buf[x] == if EndsAt(c, x) then NUL else CharAt(s, x)
  }

  /** What a C string function sees from q on. */
  function CString(buf: seq<char>, q: nat): (r: string)
    decreases |buf| - q
  {
    if q < |buf| && buf[q] != NUL then [buf[q]] + CString(buf, q + 1) else []
  }

  lemma {:induction false} ReadsWord(buf: seq<char>, s: string, q: nat, eq: nat)
    requires q <= eq <= |s| && |buf| == |s| + 1 && buf[eq] == NUL
    requires forall x :: q <= x < eq ==> buf[x] == s[x] && s[x] != NUL
    ensures CString(buf, q) == s[q..eq]
    decreases eq - q
  {
    if q < eq {
      ReadsWord(buf, s, q + 1, eq);
      assert s[q..eq] == [s[q]] + s[q + 1..eq];
    }
  }

  lemma WordSurvives(buf: seq<char>, s: string, c: Cmd<Span>, w: Span)
    requires WordsOk(s, c) && Terminated(buf, s, c) && IsWord(s, w) && EndsAt(c, w.eq)
    ensures CString(buf, w.q) == s[w.q..w.eq]
  {
    forall x | w.q <= x < w.eq
      ensures buf[x] == s[x] && s[x] != NUL
    {
      if EndsAt(c, x) { EndsOutside(s, c, x); }
    }
    ReadsWord(buf, s, w.q, w.eq);
  }

  /** The tree with every word replaced by its slice of the line. */
  function Texts(s: string, c: Cmd<Span>): (r: Cmd<string>)
    requires WordsOk(s, c)
  {
    match c
    case Exec(argv) =>
      Exec(seq(|argv|, (k: nat) requires k < |argv| => assert IsWord(s, argv[k]); s[argv[k].q..argv[k].eq]))
    case Redir(d, file, mode, fd) => Redir(Texts(s, d), s[file.q..file.eq], mode, fd)
    case Pipe(l, r) => Pipe(Texts(s, l), Texts(s, r))
    case List(l, r) => List(Texts(s, l), Texts(s, r))
    case Back(d) => Back(Texts(s, d))
  }

  /** The tree as runcmd reads it: every word a C string in the buffer. */
  function CTexts(buf: seq<char>, c: Cmd<Span>): (r: Cmd<string>)
  {
    match c
    case Exec(argv) => Exec(seq(|argv|, (k: nat) requires k < |argv| => CString(buf, argv[k].q)))
    case Redir(d, file, mode, fd) => Redir(CTexts(buf, d), CString(buf, file.q), mode, fd)
    case Pipe(l, r) => Pipe(CTexts(buf, l), CTexts(buf, r))
    case List(l, r) => List(CTexts(buf, l), CTexts(buf, r))
    case Back(d) => Back(CTexts(buf, d))
  }

  lemma {:induction false} PartSurvives(buf: seq<char>, s: string, whole: Cmd<Span>, c: Cmd<Span>)
    requires WordsOk(s, whole) && Terminated(buf, s, whole) && WordsOk(s, c)
    requires forall x: nat :: EndsAt(c, x) ==> EndsAt(whole, x)
    ensures CTexts(buf, c) == Texts(s, c)
    decreases c
  {
    match c
    case Exec(argv) =>
      forall k | 0 <= k < |argv|
        ensures CTexts(buf, c).argv[k] == Texts(s, c).argv[k]
      {
        assert IsWord(s, argv[k]) && EndsAt(c, argv[k].eq);
        WordSurvives(buf, s, whole, argv[k]);
      }
    case Redir(d, file, _, _) =>
      PartSurvives(buf, s, whole, d);
      assert EndsAt(c, file.eq);
      WordSurvives(buf, s, whole, file);
    case Pipe(l, r) => PartSurvives(buf, s, whole, l); PartSurvives(buf, s, whole, r);
    case List(l, r) => PartSurvives(buf, s, whole, l); PartSurvives(buf, s, whole, r);
    case Back(d) => PartSurvives(buf, s, whole, d);
  }

  /** Cutting at the ends of all of c's words. */
  ghost predicate Cut(was: seq<char>, now: seq<char>, c: Cmd<Span>)
  {
    |was| == |now| && forall x: nat :: x < |was| ==> now[x] == if EndsAt(c, x) then NUL else was[x]
  }

  /** nulterminate: NULs exactly where words end. */
  method NulTerminate(buf: array<char>, c: Cmd<Span>, ghost s: string)
    requires buf.Length == |s| + 1 && WordsOk(s, c)
    modifies buf
    ensures Cut(old(buf[..]), buf[..], c)
    decreases c
  {
    match c {
      case Exec(argv) =>
        var i := 0;
        while i < |argv|
          invariant 0 <= i <= |argv|
          invariant forall x: nat :: x < buf.Length ==>
                    buf[x] == if exists k :: 0 <= k < i && argv[k].eq == x then NUL else old(buf[x])
        {
          buf[argv[i].eq] := NUL;
          i := i + 1;
        }
      case Redir(d, file, _, _) =>
        NulTerminate(buf, d, s);
        buf[file.eq] := NUL;
      case Pipe(l, r) =>
        NulTerminate(buf, l, s);
        NulTerminate(buf, r, s);
      case List(l, r) =>
        NulTerminate(buf, l, s);
        NulTerminate(buf, r, s);
      case Back(d) =>
        NulTerminate(buf, d, s);
    }
  }

  /** parsecmd's end: the line's buffer is cut in place, and every word of the tree then reads, as a C
      string, exactly as it stood in the line. */
  method Terminate(buf: array<char>, c: Cmd<Span>, ghost s: string)
    requires buf[..] == s + [NUL] && WordsOk(s, c)
    modifies buf
    ensures CTexts(buf[..], c) == Texts(s, c)
  {
    NulTerminate(buf, c, s);
    assert Terminated(buf[..], s, c);
    PartSurvives(buf[..], s, c, c);
  }
}
