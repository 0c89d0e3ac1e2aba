/** Printing a command tree with every subcommand in parentheses, and the proof that the shell's parser
    reads every legal tree back. */
module ShellPrinter {
  import opened ShellGrammar
  import opened ShellWords

  predicate LegalWord(w: string) { w != "" && forall x :: 0 <= x < |w| ==> IsWordChar(w[x]) }

  /** Trees a command line can describe: words of word characters, at most MAXARGS - 1 arguments, and
      redirections of the modes the parser makes. */
  predicate Legal(t: Cmd<string>)
  {
    match t
    case Exec(argv) => |argv| < MAXARGS && forall k :: 0 <= k < |argv| ==> LegalWord(argv[k])
    case Redir(c, file, mode, fd) => Legal(c) && LegalWord(file) && ModeOk(mode, fd)
    case Pipe(l, r) => Legal(l) && Legal(r)
    case List(l, r) => Legal(l) && Legal(r)
    case Back(c) => Legal(c)
  }

  /** The words from the k-th on, each with a space behind it. */
  function Words(args: seq<string>, k: nat): (r: string)
    requires k <= |args|
    decreases |args| - k
  {
    if k == |args| then "" else args[k] + " " + Words(args, k + 1)
  }

  function Print(t: Cmd<string>): (r: string)
  {
    match t
    case Exec(argv) => Words(argv, 0)
    case Redir(c, file, _, fd) => "(" + Print(c) + ")" + (if fd == 0 then "<" else ">") + file
    case Pipe(l, r) => "(" + Print(l) + ")" + "|" + "(" + Print(r) + ")"
    case List(l, r) => "(" + Print(l) + ")" + ";" + "(" + Print(r) + ")"
    case Back(c) => "(" + Print(c) + ")" + "&"
  }

  /** The tree c of positions stands for the tree t of words. */
  predicate Reads(s: string, c: Cmd<Span>, t: Cmd<string>)
  {
    match (c, t)
    case (Exec(a), Exec(b)) => |a| == |b| && forall k :: 0 <= k < |a| ==> ReadsAs(s, a[k], b[k])
    case (Redir(d, f, m, n), Redir(e, g, p, q)) => Reads(s, d, e) && ReadsAs(s, f, g) && m == p && n == q
    case (Pipe(a, b), Pipe(d, e)) => Reads(s, a, d) && Reads(s, b, e)
    case (List(a, b), List(d, e)) => Reads(s, a, d) && Reads(s, b, e)
    case (Back(a), Back(d)) => Reads(s, a, d)
    case _ => false
  }

  predicate ReadsAs(s: string, w: Span, x: string) { w.q <= w.eq <= |s| && s[w.q..w.eq] == x }

  /** w stands in s at i. */
  predicate At(s: string, i: nat, w: string) { i + |w| <= |s| && forall x :: 0 <= x < |w| ==> s[i + x] == w[x] }

  lemma AtParts(s: string, i: nat, a: string, b: string)
    requires At(s, i, a + b)
    ensures At(s, i, a) && At(s, i + |a|, b)
  {
    forall x | 0 <= x < |a| ensures s[i + x] == a[x] { assert (a + b)[x] == a[x]; }
    forall x | 0 <= x < |b| ensures s[i + |a| + x] == b[x] { assert (a + b)[|a| + x] == b[x]; }
  }

  lemma AtChar(s: string, i: nat, c: char)
    requires At(s, i, [c])
    ensures i < |s| && s[i] == c
  {
    assert [c][0] == c;
  }

  /** The line or a block ends here. */
  predicate Closes(s: string, k: nat) { k == |s| || (k < |s| && s[k] == ')') }

  // ----- tokens read back ---------------------------------------------------------------------

  lemma WordToken(s: string, i: nat, w: string)
    requires NUL !in s && LegalWord(w) && At(s, i, w) && !IsWordChar(CharAt(s, i + |w|))
    ensures SkipSpace(s, i) == i && IsWordChar(CharAt(s, i))
    ensures GetToken(s, i) == Token('a', i, i + |w|, SkipSpace(s, i + |w|)) && ReadsAs(s, Span(i, i + |w|), w)
  {
    forall x | i <= x < i + |w| ensures IsWordChar(s[x]) { assert s[i + (x - i)] == w[x - i]; }
    WordEndIs(s, i);
    assert s[i..i + |w|] == w;
  }

  lemma NoRedirs(s: string, i: nat)
    requires i <= |s| && !IsSpace(CharAt(s, i)) && CharAt(s, i) != '<' && CharAt(s, i) != '>'
    ensures ParseRedirs(s, i) == Ok([], i)
  {
  }

  /** A place where neither a space, nor a block, nor a redirection begins. */
  predicate Plain(s: string, i: nat)
  {
    i <= |s| && !IsSpace(CharAt(s, i)) && CharAt(s, i) != '(' && CharAt(s, i) != '<' && CharAt(s, i) != '>'
  }

  lemma WordsStart(s: string, i: nat, args: seq<string>, k: nat)
    requires k <= |args| && At(s, i, Words(args, k)) && Closes(s, i + |Words(args, k)|)
    requires (k < |args| ==> LegalWord(args[k]))
    ensures Plain(s, i)
  {
    if k < |args| {
      var w, more := args[k], Words(args, k + 1);
      assert w + " " + more == w + (" " + more);
      AtParts(s, i, w, " " + more);
      assert s[i + 0] == w[0];
    }
  }

  /** Word w stands at i with a space behind it, and then something plain. */
  predicate WordStep(s: string, i: nat, w: string)
  {
    LegalWord(w) && At(s, i, w) && CharAt(s, i + |w|) == ' ' && Plain(s, i + |w| + 1)
  }

  /** All words from the k-th on stand that way, and then the command closes. */
  predicate WordSteps(s: string, i: nat, args: seq<string>, k: nat)
    requires k <= |args|
    decreases |args| - k
  {
    if k == |args| then Closes(s, i) else WordStep(s, i, args[k]) && WordSteps(s, i + |args[k]| + 1, args, k + 1)
  }

  /** Where the words from the k-th on stand. */
  function SpansOf(args: seq<string>, k: nat, i: nat): (r: seq<Span>)
    requires k <= |args|
    ensures |r| == |args| - k
    decreases |args| - k
  {
    if k == |args| then [] else [Span(i, i + |args[k]|)] + SpansOf(args, k + 1, i + |args[k]| + 1)
  }

  lemma {:induction false} PrintedSteps(s: string, i: nat, args: seq<string>, k: nat)
    requires k <= |args| && At(s, i, Words(args, k)) && Closes(s, i + |Words(args, k)|)
    requires forall j :: 0 <= j < |args| ==> LegalWord(args[j])
    ensures WordSteps(s, i, args, k) && Plain(s, i)
    decreases |args| - k
  {
    WordsStart(s, i, args, k);
    if k < |args| {
      var w, more := args[k], Words(args, k + 1);
      AtParts(s, i, w + " ", more);
      AtParts(s, i, w, " ");
      AtChar(s, i + |w|, ' ');
      PrintedSteps(s, i + |w| + 1, args, k + 1);
    }
  }

  lemma SpanReads(s: string, i: nat, w: string)
    requires At(s, i, w)
    ensures ReadsAs(s, Span(i, i + |w|), w)
  {
    assert s[i..i + |w|] == w;
  }

  /** Where the words from the k-th on end. */
  function EndOf(args: seq<string>, k: nat, i: nat): (r: nat)
    requires k <= |args|
    decreases |args| - k
  {
    if k == |args| then i else EndOf(args, k + 1, i + |args[k]| + 1)
  }

  lemma {:induction false} EndOfWords(args: seq<string>, k: nat, i: nat)
    requires k <= |args|
    ensures EndOf(args, k, i) == i + |Words(args, k)|
    decreases |args| - k
  {
    if k < |args| { EndOfWords(args, k + 1, i + |args[k]| + 1); }
  }

  /** The m-th word from the k-th on stands at its span. */
  lemma {:induction false} SpanStands(s: string, i: nat, args: seq<string>, k: nat, m: nat)
    requires k + m < |args| && WordSteps(s, i, args, k)
    ensures ReadsAs(s, SpansOf(args, k, i)[m], args[k + m])
    decreases m
  {
    SpanReads(s, i, args[k]);
    if m > 0 {
      SpanStands(s, i + |args[k]| + 1, args, k + 1, m - 1);
    }
  }

  lemma SpansRead(s: string, i: nat, args: seq<string>)
    requires WordSteps(s, i, args, 0)
    ensures Reads(s, Exec(SpansOf(args, 0, i)), Exec(args))
  {
    forall j | 0 <= j < |args|
      ensures ReadsAs(s, SpansOf(args, 0, i)[j], args[j])
    {
      SpanStands(s, i, args, 0, j);
    }
  }

  lemma ArgsEnd(s: string, i: nat, acc: seq<Span>)
    requires NUL !in s && Closes(s, i)
    ensures ParseArgs(s, i, acc, []) == Ok(Exec(acc), i)
  {
    assert SkipSpace(s, i) == i;
    if i == |s| { assert GetToken(s, i) == Token(NUL, i, i, i); }
  }

  lemma ArgStep(s: string, i: nat, w: string, acc: seq<Span>)
    requires NUL !in s && WordStep(s, i, w) && |acc| + 1 < MAXARGS
    ensures ParseArgs(s, i, acc, []) == ParseArgs(s, i + |w| + 1, acc + [Span(i, i + |w|)], [])
  {
    WordToken(s, i, w);
    var next := i + |w| + 1;
    assert SkipSpace(s, i + |w|) == SkipSpace(s, next) == next;
    NoRedirs(s, next);
    var none: seq<File> := [];
    assert none + none == none;
    assert !Peeks(s, i, {'|', ')', '&', ';'});
  }

  /** parseexec's loop over the words from the k-th on. */
  lemma {:induction false} ArgsBack(s: string, i: nat, args: seq<string>, k: nat, acc: seq<Span>, all: seq<Span>)
    requires NUL !in s && |acc| == k <= |args| < MAXARGS && WordSteps(s, i, args, k) && all == acc + SpansOf(args, k, i)
    ensures ParseArgs(s, i, acc, []) == Ok(Exec(all), EndOf(args, k, i))
    decreases |args| - k
  {
    if k == |args| {
      ArgsEnd(s, i, acc);
      assert all == acc;
    } else {
      var w := Span(i, i + |args[k]|);
      ArgsBack(s, i + |args[k]| + 1, args, k + 1, acc + [w], all);
      ArgStep(s, i, args[k], acc);
    }
  }

  // ----- trees read back ----------------------------------------------------------------------

  /** The positions of t's words when it is printed at i. */
  function Located(t: Cmd<string>, i: nat): (c: Cmd<Span>)
  {
    match t
    case Exec(argv) => Exec(SpansOf(argv, 0, i))
    case Redir(c, file, mode, fd) =>
      Redir(Located(c, i + 1), Span(i + |Print(c)| + 3, i + |Print(c)| + 3 + |file|), mode, fd)
    case Pipe(l, r) => Pipe(Located(l, i + 1), Located(r, i + |Print(l)| + 4))
    case List(l, r) => List(Located(l, i + 1), Located(r, i + |Print(l)| + 4))
    case Back(c) => Back(Located(c, i + 1))
  }

  /** c stands at i between parentheses. */
  predicate Parenthesised(s: string, i: nat, c: Cmd<string>)
    decreases c, 1
  {
    CharAt(s, i) == '(' && Stands(s, i + 1, c) && CharAt(s, i + 1 + |Print(c)|) == ')'
  }

  /** t's printing stands at i, character by character, and then the command closes. */
  predicate Stands(s: string, i: nat, t: Cmd<string>)
    decreases t, 0
  {
    match t
    case Exec(argv) => WordSteps(s, i, argv, 0)
    case Redir(c, file, _, fd) =>
      && Parenthesised(s, i, c) && CharAt(s, i + |Print(c)| + 2) == (if fd == 0 then '<' else '>')
      && LegalWord(file) && At(s, i + |Print(c)| + 3, file) && Closes(s, i + |Print(c)| + 3 + |file|)
    case Pipe(l, r) =>
      && Parenthesised(s, i, l) && CharAt(s, i + |Print(l)| + 2) == '|'
      && Parenthesised(s, i + |Print(l)| + 3, r) && Closes(s, i + |Print(l)| + |Print(r)| + 5)
    case List(l, r) =>
      && Parenthesised(s, i, l) && CharAt(s, i + |Print(l)| + 2) == ';'
      && Parenthesised(s, i + |Print(l)| + 3, r) && Closes(s, i + |Print(l)| + |Print(r)| + 5)
    case Back(c) => Parenthesised(s, i, c) && CharAt(s, i + |Print(c)| + 2) == '&' && Closes(s, i + |Print(c)| + 3)
  }

  lemma {:induction false} PrintedParenthesised(s: string, i: nat, c: Cmd<string>)
    requires Legal(c) && At(s, i, "(" + Print(c) + ")")
    ensures Parenthesised(s, i, c)
    decreases c, 4
  {
    AtParts(s, i, "(" + Print(c), ")");
    AtParts(s, i, "(", Print(c));
    AtChar(s, i, '(');
    AtChar(s, i + 1 + |Print(c)|, ')');
    PrintedStands(s, i + 1, c);
  }

  lemma PrintedTwo(s: string, i: nat, l: string, r: string, op: char)
    requires At(s, i, "(" + l + ")" + [op] + "(" + r + ")")
    ensures At(s, i, "(" + l + ")") && CharAt(s, i + |l| + 2) == op && At(s, i + |l| + 3, "(" + r + ")")
  {
    var a, b := "(" + l + ")", "(" + r + ")";
    assert a + [op] + "(" + r + ")" == a + [op] + b;
    AtParts(s, i, a + [op], b);
    AtParts(s, i, a, [op]);
    AtChar(s, i + |a|, op);
  }

  lemma PrintedOne(s: string, i: nat, c: string, op: char, more: string)
    requires At(s, i, "(" + c + ")" + [op] + more)
    ensures At(s, i, "(" + c + ")") && CharAt(s, i + |c| + 2) == op && At(s, i + |c| + 3, more)
  {
    var a := "(" + c + ")";
    AtParts(s, i, a + [op], more);
    AtParts(s, i, a, [op]);
    AtChar(s, i + |a|, op);
  }

  lemma PrintedBack(s: string, i: nat, c: string)
    requires At(s, i, "(" + c + ")" + "&")
    ensures At(s, i, "(" + c + ")") && CharAt(s, i + |c| + 2) == '&'
  {
    AtParts(s, i, "(" + c + ")", "&");
    AtChar(s, i + |c| + 2, '&');
  }

  lemma {:induction false} PrintedRedir(s: string, i: nat, c: Cmd<string>, file: string, mode: nat, fd: nat)
    requires Legal(Redir(c, file, mode, fd)) && At(s, i, Print(Redir(c, file, mode, fd)))
    requires Closes(s, i + |Print(c)| + 3 + |file|)
    ensures Stands(s, i, Redir(c, file, mode, fd))
    decreases c, 5
  {
    PrintedOne(s, i, Print(c), if fd == 0 then '<' else '>', file);
    PrintedParenthesised(s, i, c);
  }

  lemma {:induction false} PrintedBoth(s: string, i: nat, t: Cmd<string>, l: Cmd<string>, r: Cmd<string>, op: char)
    requires Legal(l) && Legal(r) && (t == Cmd.Pipe(l, r) || t == Cmd.List(l, r))
    requires At(s, i, "(" + Print(l) + ")" + [op] + "(" + Print(r) + ")")
    ensures Parenthesised(s, i, l) && CharAt(s, i + |Print(l)| + 2) == op && Parenthesised(s, i + |Print(l)| + 3, r)
    decreases t, 0
  {
    PrintedTwo(s, i, Print(l), Print(r), op);
    PrintedParenthesised(s, i, l);
    PrintedParenthesised(s, i + |Print(l)| + 3, r);
  }

  lemma {:induction false} PrintedStands(s: string, i: nat, t: Cmd<string>)
    requires Legal(t) && At(s, i, Print(t)) && Closes(s, i + |Print(t)|)
    ensures Stands(s, i, t)
    decreases t, 3
  {
    match t
    case Exec(argv) => PrintedSteps(s, i, argv, 0);
    case Redir(c, file, mode, fd) => PrintedRedir(s, i, c, file, mode, fd);
    case Pipe(l, r) => PrintedBoth(s, i, t, l, r, '|');
    case List(l, r) => PrintedBoth(s, i, t, l, r, ';');
    case Back(c) =>
      PrintedBack(s, i, Print(c));
      PrintedParenthesised(s, i, c);
  }

  /** A command starts with neither a space nor a redirection. */
  lemma StandsStart(s: string, i: nat, t: Cmd<string>)
    requires Stands(s, i, t)
    ensures i <= |s| && !IsSpace(CharAt(s, i)) && (!t.Exec? ==> CharAt(s, i) == '(') && (t.Exec? ==> Plain(s, i))
  {
    if t.Exec? && t.argv != [] {
      assert s[i + 0] == t.argv[0][0];
    }
  }

  /** A one-character token with no space behind it. */
  lemma SymbolToken(s: string, i: nat)
    requires i < |s| && IsSymbol(s[i]) && s[i] != '>' && !IsSpace(CharAt(s, i + 1))
    ensures SkipSpace(s, i) == i && GetToken(s, i) == Token(s[i], i, i + 1, i + 1)
  {
  }

  /** A block whose inside is read back as d up to the closing parenthesis at k. */
  lemma BlockBack(s: string, i: nat, d: Cmd<Span>, k: nat, files: seq<File>, pos: nat)
    requires i < k < |s| && Peeks(s, i, {'('}) && GetToken(s, i).next == i + 1 && Peeks(s, k, {')'})
    requires GetToken(s, k).next == k + 1
    requires ParseLine(s, i + 1) == Ok(d, k) && ParseRedirs(s, k + 1) == Ok(files, pos)
    ensures ParseBlock(s, i) == Ok(Wrap(d, files), pos)
  {
    CloseBack(s, d, k, files, pos);
  }

  lemma CloseBack(s: string, d: Cmd<Span>, k: nat, files: seq<File>, pos: nat)
    requires k < |s| && Peeks(s, k, {')'}) && GetToken(s, k).next == k + 1 && ParseRedirs(s, k + 1) == Ok(files, pos)
    ensures CloseBlock(s, Ok(d, k)) == Ok(Wrap(d, files), pos)
  {
  }

  lemma Parentheses(s: string, i: nat)
    requires i < |s| && (s[i] == '(' || s[i] == ')') && !IsSpace(CharAt(s, i + 1))
    ensures Peeks(s, i, {s[i]}) && GetToken(s, i).next == i + 1
  {
    SymbolToken(s, i);
  }

  lemma ExecIsBlock(s: string, i: nat)
    requires i < |s| && s[i] == '('
    ensures ParseExec(s, i) == ParseBlock(s, i)
  {
    assert SkipSpace(s, i) == i && Peeks(s, i, {'('});
  }

  /** A pipe, a list and a background job, from their parts. */
  lemma PipeJoin(s: string, i: nat, d: Cmd<Span>, k: nat, e: Cmd<Span>, end: nat)
    requires i <= k < |s| && s[k] == '|' && !IsSpace(CharAt(s, k + 1)) && ParseExec(s, i) == Ok(d, k)
    requires ParsePipe(s, k + 1) == Ok(e, end)
    ensures ParsePipe(s, i) == Ok(Pipe(d, e), end)
  {
    SymbolToken(s, k);
    assert Peeks(s, k, {'|'});
  }

  lemma ListJoin(s: string, i: nat, d: Cmd<Span>, k: nat, e: Cmd<Span>, end: nat)
    requires i <= k < |s| && s[k] == ';' && !IsSpace(CharAt(s, k + 1)) && ParsePipe(s, i) == Ok(d, k)
             && ParseLine(s, k + 1) == Ok(e, end)
    ensures ParseLine(s, i) == Ok(List(d, e), end)
  {
    SymbolToken(s, k);
    assert !Peeks(s, k, {'&'}) && Peeks(s, k, {';'});
    assert ParseBacks(s, k, d) == (d, k);
  }

  lemma JobJoin(s: string, i: nat, d: Cmd<Span>, k: nat)
    requires NUL !in s && i <= k < |s| && s[k] == '&' && Closes(s, k + 1) && ParsePipe(s, i) == Ok(d, k)
    ensures ParseLine(s, i) == Ok(Back(d), k + 1)
  {
    SymbolToken(s, k);
    assert Peeks(s, k, {'&'}) && SkipSpace(s, k + 1) == k + 1 && !Peeks(s, k + 1, {'&'}) && !Peeks(s, k + 1, {';'});
    assert ParseBacks(s, k + 1, Back(d)) == (Back(d), k + 1);
    assert ParseBacks(s, k, d) == (Back(d), k + 1);
  }

  /** Nothing follows the command. */
  lemma PipeAlone(s: string, i: nat, d: Cmd<Span>, k: nat)
    requires NUL !in s && i <= |s| && Closes(s, k) && ParseExec(s, i) == Ok(d, k)
    ensures ParsePipe(s, i) == Ok(d, k) && ParseLine(s, i) == Ok(d, k)
  {
    assert SkipSpace(s, k) == k && !Peeks(s, k, {'|'}) && !Peeks(s, k, {'&'}) && !Peeks(s, k, {';'});
    assert ParseBacks(s, k, d) == (d, k);
  }

  /** One redirection behind a block. */
  lemma RedirBack(s: string, k: nat, file: string)
    requires NUL !in s && k < |s| && (s[k] == '<' || s[k] == '>') && LegalWord(file) && At(s, k + 1, file)
    requires Closes(s, k + 1 + |file|)
    ensures var f := Span(k + 1, k + 1 + |file|);
            ParseRedirs(s, k) ==
              Ok([if s[k] == '<' then File(f, O_RDONLY, 0) else File(f, O_WRONLY_CREATE, 1)], k + 1 + |file|)
  {
    var end := k + 1 + |file|;
    WordToken(s, k + 1, file);
    assert SkipSpace(s, end) == end;
    NoRedirs(s, end);
    RedirToken(s, k);
    var none: seq<File> := [];
    var f := if s[k] == '<' then File(Span(k + 1, end), O_RDONLY, 0) else File(Span(k + 1, end), O_WRONLY_CREATE, 1);
    assert [f] + none == [f];
  }

  lemma RedirToken(s: string, k: nat)
    requires k < |s| && (s[k] == '<' || s[k] == '>') && IsWordChar(CharAt(s, k + 1))
    ensures SkipSpace(s, k) == k && Peeks(s, k, {'<', '>'}) && GetToken(s, k) == Token(s[k], k, k + 1, k + 1)
  {
  }

  // ----- the round trip -----------------------------------------------------------------------

  lemma ExecBack(s: string, i: nat, argv: seq<string>)
    requires NUL !in s && |argv| < MAXARGS && WordSteps(s, i, argv, 0) && Plain(s, i)
    ensures ParseExec(s, i) == Ok(Exec(SpansOf(argv, 0, i)), i + |Words(argv, 0)|)
  {
    var all := SpansOf(argv, 0, i);
    assert all == [] + all;
    ArgsBack(s, i, argv, 0, [], all);
    EndOfWords(argv, 0, i);
    NoRedirs(s, i);
    assert !Peeks(s, i, {'('}) && SkipSpace(s, i) == i;
  }

  /** Where the words of t close. */
  lemma {:induction false} WordsClose(s: string, i: nat, args: seq<string>, k: nat)
    requires k <= |args| && WordSteps(s, i, args, k)
    ensures Closes(s, i + |Words(args, k)|)
    decreases |args| - k
  {
    if k < |args| { WordsClose(s, i + |args[k]| + 1, args, k + 1); }
  }

  /** A parenthesised command is one block for parseexec, with the redirections behind it. */
  lemma {:induction false} ParenthesesBack(s: string, i: nat, c: Cmd<string>, files: seq<File>, pos: nat)
    requires NUL !in s && Legal(c) && Parenthesised(s, i, c) && !IsSpace(CharAt(s, i + |Print(c)| + 2))
    requires i + |Print(c)| + 2 <= |s| && ParseRedirs(s, i + |Print(c)| + 2) == Ok(files, pos)
    ensures i <= |s| && ParseExec(s, i) == Ok(Wrap(Located(c, i + 1), files), pos)
    decreases c, 5
  {
    LineBack(s, i + 1, c);
    StandsStart(s, i + 1, c);
    BlockWhole(s, i, Located(c, i + 1), i + 1 + |Print(c)|, files, pos);
  }

  lemma BlockWhole(s: string, i: nat, d: Cmd<Span>, k: nat, files: seq<File>, pos: nat)
    requires i < k < |s| && s[i] == '(' && s[k] == ')' && !IsSpace(CharAt(s, i + 1)) && !IsSpace(CharAt(s, k + 1))
    requires ParseLine(s, i + 1) == Ok(d, k) && ParseRedirs(s, k + 1) == Ok(files, pos)
    ensures ParseExec(s, i) == Ok(Wrap(d, files), pos)
  {
    Parentheses(s, i);
    Parentheses(s, k);
    BlockBack(s, i, d, k, files, pos);
    ExecIsBlock(s, i);
  }

  lemma {:induction false} HalfBack(s: string, i: nat, c: Cmd<string>, k: nat)
    requires NUL !in s && Legal(c) && Parenthesised(s, i, c) && k == i + |Print(c)| + 2 && Plain(s, k)
    ensures i <= |s| && ParseExec(s, i) == Ok(Located(c, i + 1), k)
    decreases c, 6
  {
    NoRedirs(s, k);
    ParenthesesBack(s, i, c, [], k);
  }

  /** Two parenthesised commands with op between them, the second closing at end. */
  predicate TwoStand(s: string, i: nat, l: Cmd<string>, op: char, r: Cmd<string>, k: nat, end: nat)
  {
    && k == i + |Print(l)| + 2 && end == k + |Print(r)| + 3 && i <= k < k + 1 < |s| && s[k] == op && s[k + 1] == '('
    && Parenthesised(s, i, l) && Parenthesised(s, k + 1, r) && Closes(s, end) && Plain(s, k) && Plain(s, end)
  }

  lemma {:induction false} RedirTree(s: string, i: nat, c: Cmd<string>, file: string, f: File, k: nat, end: nat)
    requires NUL !in s && Legal(c) && Parenthesised(s, i, c) && k == i + |Print(c)| + 2 && k < |s|
    requires end == k + 1 + |file|
    requires (s[k] == '<' || s[k] == '>') && LegalWord(file) && At(s, k + 1, file) && Closes(s, end)
    requires f == if s[k] == '<' then File(Span(k + 1, end), O_RDONLY, 0)
             else File(Span(k + 1, end), O_WRONLY_CREATE, 1)
    ensures i <= |s| && ParseLine(s, i) == Ok(Redir(Located(c, i + 1), f.name, f.mode, f.fd), end)
    decreases c, 6
  {
    WrapOne(Located(c, i + 1), f);
    RedirBack(s, k, file);
    ParenthesesBack(s, i, c, [f], end);
    PipeAlone(s, i, Wrap(Located(c, i + 1), [f]), end);
  }

  lemma WrapOne(c: Cmd<Span>, f: File)
    ensures Wrap(c, [f]) == Redir(c, f.name, f.mode, f.fd)
  {
    assert [f][..0] == [];
  }

  lemma PipeWhole(s: string, i: nat, d: Cmd<Span>, k: nat, e: Cmd<Span>, end: nat)
    requires NUL !in s && i <= k < k + 1 < |s| && s[k] == '|' && s[k + 1] == '(' && Closes(s, end)
    requires ParseExec(s, i) == Ok(d, k) && ParseExec(s, k + 1) == Ok(e, end)
    ensures ParseLine(s, i) == Ok(Pipe(d, e), end)
  {
    PipeAlone(s, k + 1, e, end);
    PipeJoin(s, i, d, k, e, end);
    LineAlone(s, i, Pipe(d, e), end);
  }

  lemma ListWhole(s: string, i: nat, d: Cmd<Span>, k: nat, e: Cmd<Span>, end: nat)
    requires NUL !in s && i <= k < k + 1 < |s| && s[k] == ';' && s[k + 1] == '(' && Closes(s, end)
    requires ParseExec(s, i) == Ok(d, k) && ParseExec(s, k + 1) == Ok(e, end)
    ensures ParseLine(s, i) == Ok(List(d, e), end)
  {
    PipeAlone(s, k + 1, e, end);
    PipeUnlessBar(s, i, d, k);
    ListJoin(s, i, d, k, e, end);
  }

  lemma {:induction false} TwoHalves(s: string, i: nat, t: Cmd<string>, l: Cmd<string>, op: char, r: Cmd<string>,
                                     k: nat, end: nat)
    requires NUL !in s && Legal(l) && Legal(r) && TwoStand(s, i, l, op, r, k, end)
    requires (t == Cmd.Pipe(l, r) || t == Cmd.List(l, r))
    ensures ParseExec(s, i) == Ok(Located(l, i + 1), k) && ParseExec(s, k + 1) == Ok(Located(r, k + 2), end)
    decreases t, 1
  {
    HalfBack(s, i, l, k);
    HalfBack(s, k + 1, r, end);
  }

  lemma {:induction false} PipeTree(s: string, i: nat, l: Cmd<string>, r: Cmd<string>, k: nat, end: nat)
    requires NUL !in s && Legal(l) && Legal(r) && TwoStand(s, i, l, '|', r, k, end)
    ensures ParseLine(s, i) == Ok(Pipe(Located(l, i + 1), Located(r, k + 2)), end)
    decreases Cmd.Pipe(l, r), 2
  {
    TwoHalves(s, i, Cmd.Pipe(l, r), l, '|', r, k, end);
    PipeWhole(s, i, Located(l, i + 1), k, Located(r, k + 2), end);
  }

  lemma {:induction false} ListTree(s: string, i: nat, l: Cmd<string>, r: Cmd<string>, k: nat, end: nat)
    requires NUL !in s && Legal(l) && Legal(r) && TwoStand(s, i, l, ';', r, k, end)
    ensures ParseLine(s, i) == Ok(List(Located(l, i + 1), Located(r, k + 2)), end)
    decreases Cmd.List(l, r), 2
  {
    TwoHalves(s, i, Cmd.List(l, r), l, ';', r, k, end);
    ListWhole(s, i, Located(l, i + 1), k, Located(r, k + 2), end);
  }

  lemma {:induction false} JobTree(s: string, i: nat, c: Cmd<string>, k: nat)
    requires NUL !in s && Legal(c) && Parenthesised(s, i, c) && k == i + |Print(c)| + 2 && k < |s| && s[k] == '&'
    requires Closes(s, k + 1)
    ensures i <= |s| && ParseLine(s, i) == Ok(Back(Located(c, i + 1)), k + 1)
    decreases Cmd.Back(c), 2
  {
    HalfBack(s, i, c, k);
    PipeUnlessBar(s, i, Located(c, i + 1), k);
    JobJoin(s, i, Located(c, i + 1), k);
  }

  lemma LineAlone(s: string, i: nat, d: Cmd<Span>, k: nat)
    requires NUL !in s && i <= |s| && Closes(s, k) && ParsePipe(s, i) == Ok(d, k)
    ensures ParseLine(s, i) == Ok(d, k)
  {
    assert SkipSpace(s, k) == k && !Peeks(s, k, {'&'}) && !Peeks(s, k, {';'});
    assert ParseBacks(s, k, d) == (d, k);
  }

  lemma PipeUnlessBar(s: string, i: nat, d: Cmd<Span>, k: nat)
    requires i <= |s| && k < |s| && !IsSpace(s[k]) && s[k] != '|' && ParseExec(s, i) == Ok(d, k)
    ensures ParsePipe(s, i) == Ok(d, k)
  {
    assert SkipSpace(s, k) == k && !Peeks(s, k, {'|'});
  }

  lemma ExecTree(s: string, i: nat, argv: seq<string>)
    requires NUL !in s && |argv| < MAXARGS && WordSteps(s, i, argv, 0) && Plain(s, i)
    ensures ParseLine(s, i) == Ok(Exec(SpansOf(argv, 0, i)), i + |Words(argv, 0)|)
  {
    ExecBack(s, i, argv);
    WordsClose(s, i, argv, 0);
    PipeAlone(s, i, Exec(SpansOf(argv, 0, i)), i + |Words(argv, 0)|);
  }

  lemma TwoWidth(l: Cmd<string>, r: Cmd<string>)
    ensures |Print(Cmd.Pipe(l, r))| == |Print(Cmd.List(l, r))| == |Print(l)| + |Print(r)| + 5
  {
  }

  lemma OneWidth(c: Cmd<string>, file: string, mode: nat, fd: nat)
    ensures |Print(Redir(c, file, mode, fd))| == |Print(c)| + 3 + |file| && |Print(Cmd.Back(c))| == |Print(c)| + 3
  {
  }

  lemma PipeParts(s: string, i: nat, l: Cmd<string>, r: Cmd<string>)
    requires Stands(s, i, Cmd.Pipe(l, r))
    ensures TwoStand(s, i, l, '|', r, i + |Print(l)| + 2, i + |Print(l)| + |Print(r)| + 5)
  {
  }

  lemma ListParts(s: string, i: nat, l: Cmd<string>, r: Cmd<string>)
    requires Stands(s, i, Cmd.List(l, r))
    ensures TwoStand(s, i, l, ';', r, i + |Print(l)| + 2, i + |Print(l)| + |Print(r)| + 5)
  {
  }

  /** What parseline makes of a printed tree, by the kind of tree. */
  lemma {:induction false} PipeCase(s: string, i: nat, l: Cmd<string>, r: Cmd<string>)
    requires NUL !in s && Legal(l) && Legal(r) && Stands(s, i, Cmd.Pipe(l, r)) && i <= |s|
    ensures ParseLine(s, i) == Ok(Located(Cmd.Pipe(l, r), i), i + |Print(Cmd.Pipe(l, r))|)
    decreases Cmd.Pipe(l, r), 3
  {
    TwoWidth(l, r);
    PipeParts(s, i, l, r);
    PipeTree(s, i, l, r, i + |Print(l)| + 2, i + |Print(l)| + |Print(r)| + 5);
  }

  lemma {:induction false} ListCase(s: string, i: nat, l: Cmd<string>, r: Cmd<string>)
    requires NUL !in s && Legal(l) && Legal(r) && Stands(s, i, Cmd.List(l, r)) && i <= |s|
    ensures ParseLine(s, i) == Ok(Located(Cmd.List(l, r), i), i + |Print(Cmd.List(l, r))|)
    decreases Cmd.List(l, r), 3
  {
    TwoWidth(l, r);
    ListParts(s, i, l, r);
    ListTree(s, i, l, r, i + |Print(l)| + 2, i + |Print(l)| + |Print(r)| + 5);
  }

  lemma {:induction false} RedirCase(s: string, i: nat, c: Cmd<string>, file: string, mode: nat, fd: nat)
    requires NUL !in s && Legal(Redir(c, file, mode, fd)) && Stands(s, i, Redir(c, file, mode, fd)) && i <= |s|
    ensures ParseLine(s, i) == Ok(Located(Redir(c, file, mode, fd), i), i + |Print(Redir(c, file, mode, fd))|)
    decreases c, 7
  {
    OneWidth(c, file, mode, fd);
    var k := i + |Print(c)| + 2;
    RedirTree(s, i, c, file, File(Span(k + 1, k + 1 + |file|), mode, fd), k, k + 1 + |file|);
  }

  lemma {:induction false} JobCase(s: string, i: nat, c: Cmd<string>)
    requires NUL !in s && Legal(c) && Stands(s, i, Cmd.Back(c)) && i <= |s|
    ensures ParseLine(s, i) == Ok(Located(Cmd.Back(c), i), i + |Print(Cmd.Back(c))|)
    decreases Cmd.Back(c), 3
  {
    OneWidth(c, "", 0, 0);
    JobTree(s, i, c, i + |Print(c)| + 2);
  }

  /** What parseline makes of a printed tree. */
  lemma {:induction false} LineBack(s: string, i: nat, t: Cmd<string>)
    requires NUL !in s && Legal(t) && Stands(s, i, t)
    ensures i <= |s| && ParseLine(s, i) == Ok(Located(t, i), i + |Print(t)|)
    decreases t, 4
  {
    StandsStart(s, i, t);
    match t
    case Exec(argv) => ExecTree(s, i, argv);
    case Redir(c, file, mode, fd) => RedirCase(s, i, c, file, mode, fd);
    case Pipe(l, r) => PipeCase(s, i, l, r);
    case List(l, r) => ListCase(s, i, l, r);
    case Back(c) => JobCase(s, i, c);
  }

  /** The positions found are those of the words printed. */
  lemma {:induction false} LocatedReads(s: string, i: nat, t: Cmd<string>)
    requires Stands(s, i, t)
    ensures Reads(s, Located(t, i), t)
    decreases t, 1
  {
    match t
    case Exec(argv) => SpansRead(s, i, argv);
    case Redir(c, file, mode, fd) => RedirReads(s, i, c, file, mode, fd);
    case Pipe(l, r) => TwoRead(s, i, t, l, r);
    case List(l, r) => TwoRead(s, i, t, l, r);
    case Back(c) => LocatedReads(s, i + 1, c);
  }

  lemma {:induction false} RedirReads(s: string, i: nat, c: Cmd<string>, file: string, mode: nat, fd: nat)
    requires Stands(s, i, Redir(c, file, mode, fd))
    ensures Reads(s, Located(Redir(c, file, mode, fd), i), Redir(c, file, mode, fd))
    decreases Redir(c, file, mode, fd), 0
  {
    LocatedReads(s, i + 1, c);
    SpanReads(s, i + |Print(c)| + 3, file);
  }

  lemma {:induction false} TwoRead(s: string, i: nat, t: Cmd<string>, l: Cmd<string>, r: Cmd<string>)
    requires Stands(s, i, t) && (t == Cmd.Pipe(l, r) || t == Cmd.List(l, r))
    ensures Reads(s, Located(t, i), t)
    decreases t, 0
  {
    LocatedReads(s, i + 1, l);
    LocatedReads(s, i + |Print(l)| + 4, r);
  }

  lemma {:induction false} ReadsTexts(s: string, c: Cmd<Span>, t: Cmd<string>)
    requires Reads(s, c, t) && WordsOk(s, c)
    ensures Texts(s, c) == t
  {
    match c
    case Exec(argv) => assert Texts(s, c).argv == t.argv;
    case Redir(d, _, _, _) => ReadsTexts(s, d, t.cmd);
    case Pipe(l, r) => ReadsTexts(s, l, t.left); ReadsTexts(s, r, t.right);
    case List(l, r) => ReadsTexts(s, l, t.first); ReadsTexts(s, r, t.rest);
    case Back(d) => ReadsTexts(s, d, t.job);
  }

  lemma {:induction false} PrintHasNoNul(t: Cmd<string>)
    requires Legal(t)
    ensures NUL !in Print(t)
  {
    match t
    case Exec(argv) => WordsHaveNoNul(argv, 0);
    case Redir(c, _, _, _) => PrintHasNoNul(c);
    case Pipe(l, r) => PrintHasNoNul(l); PrintHasNoNul(r);
    case List(l, r) => PrintHasNoNul(l); PrintHasNoNul(r);
    case Back(c) => PrintHasNoNul(c);
  }

  lemma {:induction false} WordsHaveNoNul(args: seq<string>, k: nat)
    requires k <= |args| && forall j :: 0 <= j < |args| ==> LegalWord(args[j])
    ensures NUL !in Words(args, k)
    decreases |args| - k
  {
    if k < |args| { WordsHaveNoNul(args, k + 1); }
  }

  /** Parsing the printing of a legal tree gives the tree: the parser accepts it, and its words read as
      the words printed. */
  lemma RoundTrip(t: Cmd<string>)
    requires Legal(t)
    ensures ParseCmd(Print(t)).Ok? && WordsOk(Print(t), ParseCmd(Print(t)).value)
    ensures Texts(Print(t), ParseCmd(Print(t)).value) == t
  {
    var s := Print(t);
    PrintHasNoNul(t);
    PrintedStands(s, 0, t);
    LineBack(s, 0, t);
    LineWords(s, 0);
    LocatedReads(s, 0, t);
    ReadsTexts(s, Located(t, 0), t);
  }

  /** The trees the parser makes are legal. */
  lemma {:induction false} ParsedLegal(s: string, c: Cmd<Span>)
    requires NUL !in s && WordsOk(s, c)
    ensures Legal(Texts(s, c))
  {
    match c
    case Exec(argv) =>
      forall k | 0 <= k < |argv|
        ensures LegalWord(Texts(s, c).argv[k])
      {
        assert IsWord(s, argv[k]);
      }
    case Redir(d, _, _, _) => ParsedLegal(s, d);
    case Pipe(l, r) => ParsedLegal(s, l); ParsedLegal(s, r);
    case List(l, r) => ParsedLegal(s, l); ParsedLegal(s, r);
    case Back(d) => ParsedLegal(s, d);
  }

  /** The trees of accepted lines are exactly the legal ones, and every accepted line means the same as
      the printing of its tree. */
  lemma AcceptedMeansLegal(s: string)
    requires NUL !in s && ParseCmd(s).Ok?
    ensures WordsOk(s, ParseCmd(s).value)
    ensures var t := Texts(s, ParseCmd(s).value);
            Legal(t) && ParseCmd(Print(t)).Ok? && WordsOk(Print(t), ParseCmd(Print(t)).value)
            && Texts(Print(t), ParseCmd(Print(t)).value) == t
  {
    LineWords(s, 0);
    ParsedLegal(s, ParseCmd(s).value);
    RoundTrip(Texts(s, ParseCmd(s).value));
  }
}
