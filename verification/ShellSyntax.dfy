/** The shell's command language as a grammar over tokens, and the proof that sh.c's parser accepts
    exactly its sentences and builds the tree the grammar gives them. */
module ShellSyntax {
  import opened ShellGrammar

  /** The tokens of the line from i on. */
  function Tokens(s: string, i: nat): (ts: seq<Token>)
    requires i <= |s|
    decreases |s| - i
  {
    var t := GetToken(s, i);
    if t.kind == NUL then [] else [t] + Tokens(s, t.next)
  }

  // ----- the grammar --------------------------------------------------------------------------

  predicate IsOp(k: char) { k == '<' || k == '>' || k == '+' }

  predicate IsRedirection(op: Token, word: Token, f: File)
  {
    && IsOp(op.kind) && word.kind == 'a' && f.name == Span(word.q, word.eq)
    && if op.kind == '<' then f.mode == O_RDONLY && f.fd == 0 else f.mode == O_WRONLY_CREATE && f.fd == 1
  }

  /** redirs ::= { ("<" | ">" | ">>") word } */
  predicate IsRedirs(ts: seq<Token>, files: seq<File>)
  {
    |ts| == 2 * |files| && forall k :: 0 <= k < |files| ==> IsRedirection(ts[2 * k], ts[2 * k + 1], files[k])
  }

  /** items ::= { word | ("<" | ">" | ">>") word }, with the words and the redirections in order. */
  predicate IsItems(ts: seq<Token>, args: seq<Span>, files: seq<File>)
  {
    if ts == [] then args == [] && files == []
    else if ts[0].kind == 'a' then args != [] && args[0] == Span(ts[0].q, ts[0].eq)
      && IsItems(ts[1..], args[1..], files)
    else |ts| >= 2 && files != [] && IsRedirection(ts[0], ts[1], files[0]) && IsItems(ts[2..], args, files[1..])
  }

  /** simple ::= items, of which fewer than MAXARGS are words. Redirections go around the command in order. */
  ghost predicate IsSimple(ts: seq<Token>, t: Cmd<Span>)
  {
    exists args, files :: IsItems(ts, args, files) && |args| < MAXARGS && t == Wrap(Exec(args), files)
  }

  /** ts[..k + 1] ::= "(" line ")", and redirections behind it. */
  ghost predicate IsBlockAt(ts: seq<Token>, t: Cmd<Span>, k: nat, c: Cmd<Span>, files: seq<File>)
    decreases |ts|, 0
  {
    && 0 < k < |ts| && ts[0].kind == '(' && ts[k].kind == ')'
    && IsLine(ts[1..k], c) && IsRedirs(ts[k + 1..], files) && t == Wrap(c, files)
  }

  /** command ::= simple | "(" line ")" redirs */
  ghost predicate IsCommand(ts: seq<Token>, t: Cmd<Span>)
    decreases |ts|, 1
  {
    IsSimple(ts, t) || exists k: nat, c, files :: IsBlockAt(ts, t, k, c, files)
  }

  /** pipe ::= command [ "|" pipe ] */
  ghost predicate IsPipe(ts: seq<Token>, t: Cmd<Span>)
    decreases |ts|, 2
  {
    || IsCommand(ts, t)
    || (&& t.Pipe?
        && exists k ::
             0 <= k < |ts| && ts[k].kind == '|' && IsCommand(ts[..k], t.left) && IsPipe(ts[k + 1..], t.right))
  }

  /** jobs ::= pipe { "&" } */
  ghost predicate IsJobs(ts: seq<Token>, t: Cmd<Span>)
    decreases |ts|, 3
  {
    || IsPipe(ts, t)
    || (t.Back? && ts != [] && ts[|ts| - 1].kind == '&' && IsJobs(ts[..|ts| - 1], t.job))
  }

  /** line ::= jobs [ ";" line ] */
  ghost predicate IsLine(ts: seq<Token>, t: Cmd<Span>)
    decreases |ts|, 4
  {
    || IsJobs(ts, t)
    || (&& t.List?
        && exists k ::
             0 <= k < |ts| && ts[k].kind == ';' && IsJobs(ts[..k], t.first) && IsLine(ts[k + 1..], t.rest))
  }

  // ----- tokens and positions -----------------------------------------------------------------

  lemma {:induction false} SkipTwice(s: string, i: nat)
    requires i <= |s|
    ensures SkipSpace(s, SkipSpace(s, i)) == SkipSpace(s, i)
    ensures GetToken(s, SkipSpace(s, i)) == GetToken(s, i) && Tokens(s, SkipSpace(s, i)) == Tokens(s, i)
  {
  }

  /** What peek sees is the kind of the next token. */
  lemma PeekKind(s: string, i: nat, toks: set<char>)
    requires NUL !in s && i <= |s| && forall c :: c in toks ==> IsSymbol(c)
    ensures Tokens(s, i) == [] ==> !Peeks(s, i, toks) && SkipSpace(s, i) == |s|
    ensures Tokens(s, i) != [] ==>
              var k := Tokens(s, i)[0].kind;
              && SkipSpace(s, i) < |s|
              && (Peeks(s, i, toks) <==> (IsSymbol(k) && k in toks) || (k == '+' && '>' in toks))
  {
    var q := SkipSpace(s, i);
    if q < |s| { assert s[q] in s; }
  }

  /** From i to j the line has the tokens pre. */
  predicate Spans(s: string, i: nat, pre: seq<Token>, j: nat)
  {
    i <= |s| && j <= |s| && Tokens(s, i) == pre + Tokens(s, j)
  }

  lemma SpansOn(s: string, i: nat, p: seq<Token>, j: nat, q: seq<Token>, k: nat)
    requires Spans(s, i, p, j) && Spans(s, j, q, k)
    ensures Spans(s, i, p + q, k)
  {
    assert p + (q + Tokens(s, k)) == (p + q) + Tokens(s, k);
  }

  lemma SpansOne(s: string, i: nat)
    requires i <= |s| && Tokens(s, i) != []
    ensures Spans(s, i, [GetToken(s, i)], GetToken(s, i).next) && GetToken(s, i) == Tokens(s, i)[0]
  {
  }

  lemma SpansSpace(s: string, i: nat)
    requires i <= |s|
    ensures Spans(s, i, [], SkipSpace(s, i)) && GetToken(s, SkipSpace(s, i)) == GetToken(s, i)
  {
    SkipTwice(s, i);
    assert [] + Tokens(s, i) == Tokens(s, i);
  }

  // ----- sentences from their parts -----------------------------------------------------------

  lemma RedirsFirst(op: Token, word: Token, f: File, r: seq<Token>, files: seq<File>)
    requires IsRedirection(op, word, f) && IsRedirs(r, files)
    ensures IsRedirs([op, word] + r, [f] + files)
  {
    var ts, fs := [op, word] + r, [f] + files;
    forall k | 0 <= k < |fs|
      ensures IsRedirection(ts[2 * k], ts[2 * k + 1], fs[k])
    {
      if k > 0 { assert IsRedirection(r[2 * (k - 1)], r[2 * (k - 1) + 1], files[k - 1]); }
    }
  }

  lemma RedirsRest(r: seq<Token>, f: seq<File>)
    requires IsRedirs(r, f) && r != []
    ensures IsRedirs(r[2..], f[1..]) && IsRedirection(r[0], r[1], f[0])
  {
    forall k | 0 <= k < |f[1..]|
      ensures IsRedirection(r[2..][2 * k], r[2..][2 * k + 1], f[1..][k])
    {
      assert IsRedirection(r[2 * (k + 1)], r[2 * (k + 1) + 1], f[k + 1]);
    }
    assert IsRedirection(r[2 * 0], r[2 * 0 + 1], f[0]);
  }

  /** Redirections and then items are items. */
  lemma {:induction false} RedirsThenItems(r: seq<Token>, f: seq<File>, ts: seq<Token>, args: seq<Span>,
                                           files: seq<File>)
    requires IsRedirs(r, f) && IsItems(ts, args, files)
    ensures IsItems(r + ts, args, f + files)
  {
    if r == [] {
      assert r + ts == ts && f + files == files;
    } else {
      RedirsRest(r, f);
      RedirsThenItems(r[2..], f[1..], ts, args, files);
      assert (r + ts)[2..] == r[2..] + ts && (f + files)[1..] == f[1..] + files;
    }
  }

  lemma WordThenItems(t: Token, ts: seq<Token>, args: seq<Span>, files: seq<File>)
    requires t.kind == 'a' && IsItems(ts, args, files)
    ensures IsItems([t] + ts, [Span(t.q, t.eq)] + args, files)
  {
    assert ([t] + ts)[1..] == ts && ([Span(t.q, t.eq)] + args)[1..] == args;
  }

  lemma BlockOf(open: Token, ts: seq<Token>, close: Token, r: seq<Token>, c: Cmd<Span>, files: seq<File>)
    requires open.kind == '(' && close.kind == ')' && IsLine(ts, c) && IsRedirs(r, files)
    ensures IsCommand([open] + ts + [close] + r, Wrap(c, files))
  {
    var all := [open] + ts + [close] + r;
    var k := |ts| + 1;
    assert all[1..k] == ts && all[k + 1..] == r;
    assert IsBlockAt(all, Wrap(c, files), k, c, files);
  }

  lemma PipeOf(ts: seq<Token>, bar: Token, us: seq<Token>, c: Cmd<Span>, d: Cmd<Span>)
    requires bar.kind == '|' && IsCommand(ts, c) && IsPipe(us, d)
    ensures IsPipe(ts + [bar] + us, Pipe(c, d))
  {
    var all, k := ts + [bar] + us, |ts|;
    assert all[..k] == ts && all[k + 1..] == us && all[k].kind == '|';
  }

  lemma JobsOf(ts: seq<Token>, amp: Token, c: Cmd<Span>)
    requires amp.kind == '&' && IsJobs(ts, c)
    ensures IsJobs(ts + [amp], Back(c))
  {
    assert (ts + [amp])[..|ts + [amp]| - 1] == ts;
  }

  lemma LineOf(ts: seq<Token>, semi: Token, us: seq<Token>, c: Cmd<Span>, d: Cmd<Span>)
    requires semi.kind == ';' && IsJobs(ts, c) && IsLine(us, d)
    ensures IsLine(ts + [semi] + us, List(c, d))
  {
    var all, k := ts + [semi] + us, |ts|;
    assert all[..k] == ts && all[k + 1..] == us && all[k].kind == ';';
  }

  // ----- what the parser accepts is a sentence ------------------------------------------------

  lemma {:induction false} RedirsSound(s: string, i: nat) returns (r: seq<Token>)
    requires NUL !in s && i <= |s| && ParseRedirs(s, i).Ok?
    ensures IsRedirs(r, ParseRedirs(s, i).value) && Spans(s, i, r, ParseRedirs(s, i).pos)
    decreases |s| - i
  {
    SpansSpace(s, i);
    PeekKind(s, i, {'<', '>'});
    r := [];
    if Peeks(s, i, {'<', '>'}) {
      var t := GetToken(s, i);
      SpansOne(s, i);
      var f := GetToken(s, t.next);
      SpansOne(s, t.next);
      SpansOn(s, i, [t], t.next, [f], f.next);
      assert [t] + [f] == [t, f];
      var more := RedirsSound(s, f.next);
      SpansOn(s, i, [t, f], f.next, more, ParseRedirs(s, f.next).pos);
      RedirsFirst(t, f, ParseRedirs(s, i).value[0], more, ParseRedirs(s, f.next).value);
      r := [t, f] + more;
    }
  }

  lemma {:induction false} ArgsSound(s: string, i: nat, args: seq<Span>, files: seq<File>)
    returns (ts: seq<Token>, a: seq<Span>, f: seq<File>)
    requires NUL !in s && i <= |s| && ParseArgs(s, i, args, files).Ok? && |args| < MAXARGS
    ensures IsItems(ts, a, f) && |args + a| < MAXARGS && Spans(s, i, ts, ParseArgs(s, i, args, files).pos)
    ensures ParseArgs(s, i, args, files).value == Wrap(Exec(args + a), files + f)
    decreases |s| - i
  {
    SpansSpace(s, i);
    PeekKind(s, i, {'|', ')', '&', ';'});
    var t := GetToken(s, i);
    if Peeks(s, i, {'|', ')', '&', ';'}) {
      ts, a, f := [], [], [];
      assert args + a == args && files + f == files;
    } else if t.kind == NUL {
      ts, a, f := [], [], [];
      assert args + a == args && files + f == files;
      AtEnd(s, i);
    } else {
      SpansOne(s, i);
      var r := RedirsSound(s, t.next);
      var more, w := ParseRedirs(s, t.next), Span(t.q, t.eq);
      SpansOn(s, i, [t], t.next, r, more.pos);
      ts, a, f := ArgsSound(s, more.pos, args + [w], files + more.value);
      SpansOn(s, i, [t] + r, more.pos, ts, ParseArgs(s, more.pos, args + [w], files + more.value).pos);
      ArgsJoin(t, r, more.value, ts, a, f, args, files);
      ts, a, f := [t] + r + ts, [w] + a, more.value + f;
    }
  }

  lemma ArgsJoin(t: Token, r: seq<Token>, more: seq<File>, ts: seq<Token>, a: seq<Span>, f: seq<File>, args: seq<Span>,
                 files: seq<File>)
    requires t.kind == 'a' && IsRedirs(r, more) && IsItems(ts, a, f)
    ensures var w := Span(t.q, t.eq);
            && IsItems([t] + r + ts, [w] + a, more + f)
            && args + [w] + a == args + ([w] + a) && files + more + f == files + (more + f)
  {
    RedirsThenItems(r, more, ts, a, f);
    WordThenItems(t, r + ts, a, more + f);
    assert [t] + (r + ts) == [t] + r + ts;
  }

  lemma AtEnd(s: string, i: nat)
    requires NUL !in s && i <= |s| && GetToken(s, i).kind == NUL
    ensures GetToken(s, i).next == |s| && Tokens(s, |s|) == [] && Tokens(s, i) == []
  {
    PeekKind(s, i, {});
  }

  lemma {:induction false} CommandSound(s: string, i: nat) returns (ts: seq<Token>)
    requires NUL !in s && i <= |s| && ParseExec(s, i).Ok?
    ensures IsCommand(ts, ParseExec(s, i).value) && Spans(s, i, ts, ParseExec(s, i).pos)
    decreases |s| - i, 1
  {
    SkipTwice(s, i);
    var j := SkipSpace(s, i);
    if Peeks(s, i, {'('}) {
      ts := BlockSound(s, j);
    } else {
      var r := RedirsSound(s, j);
      var redirs := ParseRedirs(s, j);
      var us, a, f := ArgsSound(s, redirs.pos, [], redirs.value);
      SpansOn(s, j, r, redirs.pos, us, ParseArgs(s, redirs.pos, [], redirs.value).pos);
      RedirsThenItems(r, redirs.value, us, a, f);
      ts := r + us;
      assert [] + a == a;
      assert IsSimple(ts, ParseExec(s, i).value);
    }
  }

  lemma {:induction false} BlockSound(s: string, i: nat) returns (ts: seq<Token>)
    requires NUL !in s && i <= |s| && ParseBlock(s, i).Ok?
    ensures IsCommand(ts, ParseBlock(s, i).value) && Spans(s, i, ts, ParseBlock(s, i).pos)
    decreases |s| - i, 0
  {
    PeekKind(s, i, {'('});
    SpansOne(s, i);
    var open := GetToken(s, i);
    var us := LineSound(s, open.next);
    var c := ParseLine(s, open.next);
    SpansOn(s, i, [open], open.next, us, c.pos);
    PeekKind(s, c.pos, {')'});
    SpansOne(s, c.pos);
    var close := GetToken(s, c.pos);
    SpansOn(s, i, [open] + us, c.pos, [close], close.next);
    var r := RedirsSound(s, close.next);
    SpansOn(s, i, [open] + us + [close], close.next, r, ParseRedirs(s, close.next).pos);
    BlockOf(open, us, close, r, c.value, ParseRedirs(s, close.next).value);
    ts := [open] + us + [close] + r;
  }

  lemma {:induction false} PipeSound(s: string, i: nat) returns (ts: seq<Token>)
    requires NUL !in s && i <= |s| && ParsePipe(s, i).Ok?
    ensures IsPipe(ts, ParsePipe(s, i).value) && Spans(s, i, ts, ParsePipe(s, i).pos)
    decreases |s| - i, 2
  {
    ts := CommandSound(s, i);
    var c := ParseExec(s, i);
    SkipTwice(s, c.pos);
    PeekKind(s, c.pos, {'|'});
    if Peeks(s, c.pos, {'|'}) {
      SpansOne(s, c.pos);
      var bar := GetToken(s, c.pos);
      SpansOn(s, i, ts, c.pos, [bar], bar.next);
      var us := PipeSound(s, bar.next);
      SpansOn(s, i, ts + [bar], bar.next, us, ParsePipe(s, bar.next).pos);
      PipeOf(ts, bar, us, c.value, ParsePipe(s, bar.next).value);
      ts := ts + [bar] + us;
    }
  }

  lemma {:induction false} JobsSound(s: string, i: nat, j: nat, pre: seq<Token>, c: Cmd<Span>) returns (ts: seq<Token>)
    requires NUL !in s && Spans(s, i, pre, j) && IsJobs(pre, c)
    ensures IsJobs(ts, ParseBacks(s, j, c).0) && Spans(s, i, ts, ParseBacks(s, j, c).1)
    decreases |s| - j
  {
    SkipTwice(s, j);
    PeekKind(s, j, {'&'});
    ts := pre;
    if Peeks(s, j, {'&'}) {
      SpansOne(s, j);
      var amp := GetToken(s, j);
      SpansOn(s, i, pre, j, [amp], amp.next);
      JobsOf(pre, amp, c);
      ts := JobsSound(s, i, amp.next, pre + [amp], Back(c));
    }
  }

  lemma {:induction false} LineSound(s: string, i: nat) returns (ts: seq<Token>)
    requires NUL !in s && i <= |s| && ParseLine(s, i).Ok?
    ensures IsLine(ts, ParseLine(s, i).value) && Spans(s, i, ts, ParseLine(s, i).pos)
    decreases |s| - i, 3
  {
    var pre := PipeSound(s, i);
    var c := ParsePipe(s, i);
    ts := JobsSound(s, i, c.pos, pre, c.value);
    var (d, p) := ParseBacks(s, c.pos, c.value);
    PeekKind(s, p, {';'});
    if Peeks(s, p, {';'}) {
      SpansOne(s, p);
      var semi := GetToken(s, p);
      SpansOn(s, i, ts, p, [semi], semi.next);
      var us := LineSound(s, semi.next);
      SpansOn(s, i, ts + [semi], semi.next, us, ParseLine(s, semi.next).pos);
      LineOf(ts, semi, us, d, ParseLine(s, semi.next).value);
      ts := ts + [semi] + us;
    }
  }

  // ----- every sentence is accepted -----------------------------------------------------------

  /** Nothing follows, or a token of one of these kinds. */
  predicate Follows(rest: seq<Token>, kinds: set<char>) { rest == [] || rest[0].kind in kinds }

  lemma Next(s: string, i: nat, t: Token, rest: seq<Token>)
    requires i <= |s| && Tokens(s, i) == [t] + rest
    ensures GetToken(s, i) == t && t.next <= |s| && i < t.next && Tokens(s, t.next) == rest && t.kind != NUL
  {
    SpansOne(s, i);
    assert ([t] + rest)[1..] == rest;
  }

  /** One round of parseredirs. */
  lemma RedirsStep(s: string, i: nat, t: Token, f: Token, file: File, tail: seq<Token>)
    requires NUL !in s && i <= |s| && Tokens(s, i) == [t] + ([f] + tail) && IsRedirection(t, f, file)
    ensures i < f.next <= |s| && Tokens(s, f.next) == tail
    ensures ParseRedirs(s, f.next).Ok? ==>
              ParseRedirs(s, i) == Ok([file] + ParseRedirs(s, f.next).value, ParseRedirs(s, f.next).pos)
  {
    SkipTwice(s, i);
    PeekKind(s, i, {'<', '>'});
    Next(s, i, t, [f] + tail);
    Next(s, t.next, f, tail);
  }

  lemma RedirsNone(s: string, i: nat)
    requires NUL !in s && i <= |s| && (Tokens(s, i) == [] || !IsOp(Tokens(s, i)[0].kind))
    ensures ParseRedirs(s, i) == Ok([], SkipSpace(s, i)) && Tokens(s, SkipSpace(s, i)) == Tokens(s, i)
  {
    SkipTwice(s, i);
    PeekKind(s, i, {'<', '>'});
  }

  /** ts around its k-th token. */
  lemma Around(ts: seq<Token>, k: nat, rest: seq<Token>)
    requires k < |ts|
    ensures ts + rest == ts[..k] + ([ts[k]] + (ts[k + 1..] + rest))
  {
  }

  lemma {:induction false} RedirsComplete(s: string, i: nat, r: seq<Token>, files: seq<File>, rest: seq<Token>)
    requires NUL !in s && i <= |s| && Tokens(s, i) == r + rest && IsRedirs(r, files)
    requires (rest == [] || !IsOp(rest[0].kind))
    ensures ParseRedirs(s, i).Ok? && ParseRedirs(s, i).value == files && Tokens(s, ParseRedirs(s, i).pos) == rest
    decreases |s| - i
  {
    if r == [] {
      assert r + rest == rest;
      RedirsNone(s, i);
    } else {
      RedirsRest(r, files);
      var tail := r[2..] + rest;
      assert r + rest == [r[0]] + ([r[1]] + tail);
      RedirsStep(s, i, r[0], r[1], files[0], tail);
      RedirsComplete(s, r[1].next, r[2..], files[1..], rest);
    }
  }

  /** Items begin with redirections, and then comes a word or nothing. */
  lemma {:induction false} ItemsSplit(ts: seq<Token>, args: seq<Span>, files: seq<File>)
    returns (r: seq<Token>, f: seq<File>, us: seq<Token>, f': seq<File>)
    requires IsItems(ts, args, files)
    ensures ts == r + us && files == f + f' && IsRedirs(r, f) && IsItems(us, args, f') && Follows(us, {'a'})
  {
    if ts == [] || ts[0].kind == 'a' {
      r, f, us, f' := [], [], ts, files;
    } else {
      r, f, us, f' := ItemsSplit(ts[2..], args, files[1..]);
      RedirsFirst(ts[0], ts[1], files[0], r, f);
      r, f := [ts[0], ts[1]] + r, [files[0]] + f;
    }
  }

  /** The first of some items that begin with a word, the redirections behind it, and the others. */
  lemma FirstArg(pre: seq<Token>, a: seq<Span>, f: seq<File>, args: seq<Span>, files: seq<File>, rest: seq<Token>)
    returns (r: seq<Token>, f1: seq<File>, us: seq<Token>, f2: seq<File>)
    requires pre != [] && pre[0].kind == 'a' && IsItems(pre, a, f) && (rest == [] || !IsOp(rest[0].kind))
    ensures pre + rest == [pre[0]] + (r + (us + rest)) && IsRedirs(r, f1) && IsItems(us, a[1..], f2)
    ensures Follows(us, {'a'})
    ensures us + rest == [] || !IsOp((us + rest)[0].kind)
    ensures a != [] && a[0] == Span(pre[0].q, pre[0].eq)
    ensures args + [a[0]] + a[1..] == args + a && files + f1 + f2 == files + f
  {
    r, f1, us, f2 := ItemsSplit(pre[1..], a[1..], f);
    assert pre == [pre[0]] + (r + us) && a == [a[0]] + a[1..];
  }

  lemma {:induction false} ArgsComplete(s: string, i: nat, pre: seq<Token>, a: seq<Span>, f: seq<File>,
                                        args: seq<Span>, files: seq<File>, rest: seq<Token>)
    requires NUL !in s && i <= |s| && Tokens(s, i) == pre + rest && IsItems(pre, a, f) && Follows(pre, {'a'})
    requires |args + a| < MAXARGS && Follows(rest, {'|', ')', '&', ';'})
    ensures var r := ParseArgs(s, i, args, files);
            r.Ok? && r.value == Wrap(Exec(args + a), files + f) && Tokens(s, r.pos) == rest
    decreases |s| - i
  {
    SkipTwice(s, i);
    PeekKind(s, i, {'|', ')', '&', ';'});
    if pre == [] {
      assert pre + rest == rest && args + a == args && files + f == files;
      if rest == [] { AtEnd(s, i); }
    } else {
      var t, w := pre[0], a[0];
      var r, f1, us, f2 := FirstArg(pre, a, f, args, files, rest);
      Next(s, i, t, r + (us + rest));
      RedirsComplete(s, t.next, r, f1, us + rest);
      ArgsComplete(s, ParseRedirs(s, t.next).pos, us, a[1..], f2, args + [w], files + f1, rest);
    }
  }

  lemma {:induction false} CommandComplete(s: string, i: nat, pre: seq<Token>, t: Cmd<Span>, rest: seq<Token>)
    requires NUL !in s && i <= |s| && Tokens(s, i) == pre + rest && IsCommand(pre, t)
    requires Follows(rest, {'|', ')', '&', ';'})
    ensures ParseExec(s, i).Ok? && ParseExec(s, i).value == t && Tokens(s, ParseExec(s, i).pos) == rest
    decreases |s| - i, 1
  {
    SkipTwice(s, i);
    PeekKind(s, i, {'('});
    if IsSimple(pre, t) {
      SimpleComplete(s, i, pre, t, rest);
    } else {
      var k: nat, c, files :| IsBlockAt(pre, t, k, c, files);
      BlockComplete(s, SkipSpace(s, i), pre, k, c, files, rest);
    }
  }

  lemma ItemsComplete(s: string, j: nat, pre: seq<Token>, args: seq<Span>, files: seq<File>, rest: seq<Token>)
    requires NUL !in s && j <= |s| && Tokens(s, j) == pre + rest && IsItems(pre, args, files) && |args| < MAXARGS
    requires Follows(rest, {'|', ')', '&', ';'})
    ensures ParseRedirs(s, j).Ok?
    ensures var r := ParseArgs(s, ParseRedirs(s, j).pos, [], ParseRedirs(s, j).value);
            r.Ok? && r.value == Wrap(Exec(args), files) && Tokens(s, r.pos) == rest
  {
    var r, f1, us, f2 := ItemsSplit(pre, args, files);
    assert pre + rest == r + (us + rest) && [] + args == args;
    RedirsComplete(s, j, r, f1, us + rest);
    ArgsComplete(s, ParseRedirs(s, j).pos, us, args, f2, [], f1, rest);
  }

  lemma SimpleComplete(s: string, i: nat, pre: seq<Token>, t: Cmd<Span>, rest: seq<Token>)
    requires NUL !in s && i <= |s| && Tokens(s, i) == pre + rest && IsSimple(pre, t)
    requires Follows(rest, {'|', ')', '&', ';'})
    ensures ParseExec(s, i).Ok? && ParseExec(s, i).value == t && Tokens(s, ParseExec(s, i).pos) == rest
  {
    SkipTwice(s, i);
    PeekKind(s, i, {'('});
    var args, files :| IsItems(pre, args, files) && |args| < MAXARGS && t == Wrap(Exec(args), files);
    ItemsComplete(s, SkipSpace(s, i), pre, args, files, rest);
  }

  lemma {:induction false} BlockComplete(s: string, i: nat, pre: seq<Token>, k: nat, c: Cmd<Span>, files: seq<File>,
                                         rest: seq<Token>)
    requires NUL !in s && i <= |s| && Tokens(s, i) == pre + rest && Follows(rest, {'|', ')', '&', ';'})
    requires IsBlockAt(pre, Wrap(c, files), k, c, files)
    ensures ParseBlock(s, i).Ok? && ParseBlock(s, i).value == Wrap(c, files) && Tokens(s, ParseBlock(s, i).pos) == rest
    decreases |s| - i, 0
  {
    PeekKind(s, i, {'('});
    var ts, close, r := pre[1..k], pre[k], pre[k + 1..];
    assert pre + rest == [pre[0]] + (ts + ([close] + (r + rest)));
    Next(s, i, pre[0], ts + ([close] + (r + rest)));
    LineComplete(s, pre[0].next, ts, c, [close] + (r + rest));
    var p := ParseLine(s, pre[0].next).pos;
    PeekKind(s, p, {')'});
    Next(s, p, close, r + rest);
    RedirsComplete(s, close.next, r, files, rest);
  }

  lemma {:induction false} PipeComplete(s: string, i: nat, pre: seq<Token>, t: Cmd<Span>, rest: seq<Token>)
    requires NUL !in s && i <= |s| && Tokens(s, i) == pre + rest && IsPipe(pre, t) && Follows(rest, {')', '&', ';'})
    ensures ParsePipe(s, i).Ok? && ParsePipe(s, i).value == t && Tokens(s, ParsePipe(s, i).pos) == rest
    decreases |s| - i, 2
  {
    if IsCommand(pre, t) {
      CommandComplete(s, i, pre, t, rest);
      PeekKind(s, ParseExec(s, i).pos, {'|'});
      SkipTwice(s, ParseExec(s, i).pos);
    } else {
      var k :| 0 <= k < |pre| && pre[k].kind == '|' && IsCommand(pre[..k], t.left) && IsPipe(pre[k + 1..], t.right);
      var bar, us := pre[k], pre[k + 1..];
      Around(pre, k, rest);
      CommandComplete(s, i, pre[..k], t.left, [bar] + (us + rest));
      var p := ParseExec(s, i).pos;
      PeekKind(s, p, {'|'});
      Next(s, p, bar, us + rest);
      PipeComplete(s, bar.next, us, t.right, rest);
    }
  }

  /** parseline's loop over "&", resumed behind pre. */
  lemma {:induction false} JobsComplete(s: string, i: nat, pre: seq<Token>, t: Cmd<Span>, rest: seq<Token>)
    returns (j: nat)
    requires NUL !in s && i <= |s| && Tokens(s, i) == pre + rest && IsJobs(pre, t) && Follows(rest, {')', '&', ';'})
    ensures j <= |s| && Tokens(s, j) == rest && ParsePipe(s, i).Ok?
    ensures ParseBacks(s, ParsePipe(s, i).pos, ParsePipe(s, i).value) == ParseBacks(s, j, t)
    decreases |s| - i, 3, |pre|
  {
    if IsPipe(pre, t) {
      PipeComplete(s, i, pre, t, rest);
      j := ParsePipe(s, i).pos;
    } else {
      var n := |pre| - 1;
      Around(pre, n, rest);
      assert pre[n + 1..] + rest == rest;
      var p := JobsComplete(s, i, pre[..n], t.job, [pre[n]] + rest);
      PeekKind(s, p, {'&'});
      Next(s, p, pre[n], rest);
      j := pre[n].next;
    }
  }

  lemma {:induction false} LineComplete(s: string, i: nat, pre: seq<Token>, t: Cmd<Span>, rest: seq<Token>)
    requires NUL !in s && i <= |s| && Tokens(s, i) == pre + rest && IsLine(pre, t) && Follows(rest, {')'})
    ensures ParseLine(s, i).Ok? && ParseLine(s, i).value == t && Tokens(s, ParseLine(s, i).pos) == rest
    decreases |s| - i, 4
  {
    if IsJobs(pre, t) {
      var j := JobsComplete(s, i, pre, t, rest);
      JobsEnd(s, j, t);
    } else {
      var k :| 0 <= k < |pre| && pre[k].kind == ';' && IsJobs(pre[..k], t.first) && IsLine(pre[k + 1..], t.rest);
      var semi, us := pre[k], pre[k + 1..];
      Around(pre, k, rest);
      var j := JobsComplete(s, i, pre[..k], t.first, [semi] + (us + rest));
      Next(s, j, semi, us + rest);
      LineComplete(s, semi.next, us, t.rest, rest);
      ListComplete(s, i, j, t.first, semi, us + rest, t.rest);
    }
  }

  /** parseline at its ";". */
  lemma ListComplete(s: string, i: nat, j: nat, c: Cmd<Span>, semi: Token, more: seq<Token>, d: Cmd<Span>)
    requires NUL !in s && i <= |s| && j <= |s| && Tokens(s, j) == [semi] + more && semi.kind == ';' && semi.next <= |s|
    requires ParsePipe(s, i).Ok? && ParseBacks(s, ParsePipe(s, i).pos, ParsePipe(s, i).value) == ParseBacks(s, j, c)
    requires ParseLine(s, semi.next).Ok? && ParseLine(s, semi.next).value == d
    ensures ParseLine(s, i) == Ok(List(c, d), ParseLine(s, semi.next).pos)
  {
    JobsEnd(s, j, c);
    Next(s, SkipSpace(s, j), semi, more);
  }

  /** Where no "&" follows, the loop stops; what peek sees there. */
  lemma JobsEnd(s: string, j: nat, t: Cmd<Span>)
    requires NUL !in s && j <= |s| && Follows(Tokens(s, j), {')', ';'})
    ensures ParseBacks(s, j, t) == (t, SkipSpace(s, j)) && Tokens(s, SkipSpace(s, j)) == Tokens(s, j)
    ensures Peeks(s, SkipSpace(s, j), {';'}) <==> Tokens(s, j) != [] && Tokens(s, j)[0].kind == ';'
  {
    SkipTwice(s, j);
    PeekKind(s, j, {'&'});
    PeekKind(s, SkipSpace(s, j), {';'});
  }

  /** parsecmd accepts a line with the tree t exactly if the grammar derives t from its tokens. */
  lemma AcceptsExactly(s: string, t: Cmd<Span>)
    requires NUL !in s
    ensures ParseCmd(s) == Ok(t, |s|) <==> IsLine(Tokens(s, 0), t)
  {
    var ts := Tokens(s, 0);
    if IsLine(ts, t) {
      assert ts + [] == ts;
      LineComplete(s, 0, ts, t, []);
      PeekKind(s, ParseLine(s, 0).pos, {});
    }
    if ParseCmd(s) == Ok(t, |s|) {
      var pre := LineSound(s, 0);
      var pos := ParseLine(s, 0).pos;
      SkipTwice(s, pos);
      PeekKind(s, pos, {});
      assert pre + [] == pre;
    }
  }

  /** The grammar is unambiguous on the lines of the shell. */
  lemma Unambiguous(s: string, t: Cmd<Span>, u: Cmd<Span>)
    requires NUL !in s && IsLine(Tokens(s, 0), t) && IsLine(Tokens(s, 0), u)
    ensures t == u
  {
    AcceptsExactly(s, t);
    AcceptsExactly(s, u);
  }
}
