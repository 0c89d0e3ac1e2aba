/** The shell's parser as code: a cursor that the tokenizer and the recursive-descent routines of sh.c
    move over the line. Each routine computes the function of ShellGrammar with its name, and leaves the
    cursor where that says. */
module ShellParser {
  import opened ShellGrammar
  import opened ShellWords

  class Parser {
    const line: string
    var ps: nat

    constructor (line: string)
      ensures this.line == line && ps == 0
    {
      this.line := line;
      ps := 0;
    }

    /** The loops that pass over white space. */
    method PassSpace()
      requires ps <= |line|
      modifies this
      ensures ps == SkipSpace(line, old(ps))
    {
      while ps < |line| && IsSpace(line[ps])
        invariant ps <= |line| && SkipSpace(line, old(ps)) == SkipSpace(line, ps)
        decreases |line| - ps
      {
        ps := ps + 1;
      }
    }

    method GetToken() returns (kind: char, q: nat, eq: nat)
      requires ps <= |line|
      modifies this
      ensures ShellGrammar.GetToken(line, old(ps)) == Token(kind, q, eq, ps)
    {
      PassSpace();
      q := ps;
      kind := CharAt(line, ps);
      if kind == NUL {
      } else if kind == '>' {
        ps := ps + 1;
        if CharAt(line, ps) == '>' {
          kind := '+';
          ps := ps + 1;
        }
      } else if IsSymbol(kind) {
        ps := ps + 1;
      } else {
        kind := 'a';
        while ps < |line| && !IsSpace(line[ps]) && !IsSymbol(line[ps])
          invariant q <= ps <= |line| && WordEnd(line, q) == WordEnd(line, ps)
          decreases |line| - ps
        {
          ps := ps + 1;
        }
      }
      eq := ps;
      PassSpace();
    }

    method Peek(toks: set<char>) returns (b: bool)
      requires ps <= |line|
      modifies this
      ensures ps == SkipSpace(line, old(ps)) && b == Peeks(line, old(ps), toks)
    {
      PassSpace();
      b := CharAt(line, ps) != NUL && CharAt(line, ps) in toks;
    }

    /** parseredirs' loop. */
    method Redirections() returns (r: Result<seq<File>>)
      requires ps <= |line|
      modifies this
      ensures ps <= |line| && r == ParseRedirs(line, old(ps)) && (r.Ok? ==> ps == r.pos)
    {
      var files: seq<File> := [];
      ghost var start := ps;
      var more := Peek({'<', '>'});
      MoreNone(ParseRedirs(line, start));
      while more
        invariant ps <= |line| && SkipSpace(line, ps) == ps && more == Peeks(line, ps, {'<', '>'})
        invariant More(files, ParseRedirs(line, ps)) == ParseRedirs(line, start)
        decreases |line| - ps
      {
        var tok, _, _ := GetToken();
        var word, q, eq := GetToken();
        if word != 'a' {
          return Err("missing file for redirection");
        }
        ghost var rest := ParseRedirs(line, ps);
        var f := if tok == '<' then File(Span(q, eq), O_RDONLY, 0) else File(Span(q, eq), O_WRONLY_CREATE, 1);
        MoreMore(files, f, rest);
        files := files + [f];
        more := Peek({'<', '>'});
      }
      assert files + [] == files;
      return Ok(files, ps);
    }

    /** One round of parseexec's loop: done with result r, or one more word and its redirections. */
    method Argument(argv: seq<Span>, files: seq<File>)
      returns (done: bool, r: Result<Cmd<Span>>, w: Span, more: seq<File>)
      requires ps <= |line|
      modifies this
      ensures ps <= |line|
      ensures done ==> r == ParseArgs(line, old(ps), argv, files) && (r.Ok? ==> ps == r.pos)
      ensures !done ==>
              old(ps) < ps && ParseArgs(line, old(ps), argv, files) == ParseArgs(line, ps, argv + [w], files + more)
    {
      w, more := Span(0, 0), [];
      var stop := Peek({'|', ')', '&', ';'});
      if stop {
        return true, Ok(Wrap(Exec(argv), files), ps), w, more;
      }
      var tok, q, eq := GetToken();
      if tok == NUL {
        return true, Ok(Wrap(Exec(argv), files), ps), w, more;
      }
      if tok != 'a' {
        return true, Err("syntax"), w, more;
      }
      if |argv| + 1 >= MAXARGS {
        return true, Err("too many args"), w, more;
      }
      var redirs := Redirections();
      if redirs.Err? {
        return true, Err(redirs.msg), w, more;
      }
      return false, Err(""), Span(q, eq), redirs.value;
    }

    /** parseexec without a block: arguments and redirections in any order. */
    method Arguments() returns (r: Result<Cmd<Span>>)
      requires ps <= |line|
      modifies this
      ensures ps <= |line|
      ensures match ParseRedirs(line, old(ps))
              case Err(msg) => r == Err(msg)
              case Ok(files, pos) => r == ParseArgs(line, pos, [], files) && (r.Ok? ==> ps == r.pos)
    {
      var argv: seq<Span> := [];
      var first := Redirections();
      if first.Err? {
        return Err(first.msg);
      }
      var files := first.value;
      ghost var whole := ParseArgs(line, ps, [], files);
      while true
        invariant ps <= |line| && ParseArgs(line, ps, argv, files) == whole
        decreases |line| - ps
      {
        var done, w, more;
        done, r, w, more := Argument(argv, files);
        if done {
          return;
        }
        argv := argv + [w];
        files := files + more;
      }
    }

    method ParseExec() returns (r: Result<Cmd<Span>>)
      requires ps <= |line|
      modifies this
      ensures ps <= |line| && r == ShellGrammar.ParseExec(line, old(ps)) && (r.Ok? ==> ps == r.pos)
      decreases |line| - ps, 1
    {
      var block := Peek({'('});
      if block {
        r := ParseBlock();
        return;
      }
      r := Arguments();
    }

    method ParseBlock() returns (r: Result<Cmd<Span>>)
      requires ps <= |line|
      modifies this
      ensures ps <= |line| && r == ShellGrammar.ParseBlock(line, old(ps)) && (r.Ok? ==> ps == r.pos)
      decreases |line| - ps, 0
    {
      ghost var start := ps;
      var open := Peek({'('});
      if !open {
        return Err("parseblock");
      }
      var _, _, _ := GetToken();
      SamePeek(line, start);
      var c := ParseLine();
      if c.Err? {
        return Err(c.msg);
      }
      ghost var mid := ps;
      var close := Peek({')'});
      if !close {
        return Err("syntax - missing )");
      }
      var _, _, _ := GetToken();
      SamePeek(line, mid);
      var files := Redirections();
      if files.Err? {
        return Err(files.msg);
      }
      return Ok(Wrap(c.value, files.value), ps);
    }

    method ParsePipe() returns (r: Result<Cmd<Span>>)
      requires ps <= |line|
      modifies this
      ensures ps <= |line| && r == ShellGrammar.ParsePipe(line, old(ps)) && (r.Ok? ==> ps == r.pos)
      decreases |line| - ps, 2
    {
      var c := ParseExec();
      if c.Err? {
        return Err(c.msg);
      }
      ghost var mid := ps;
      var bar := Peek({'|'});
      if !bar {
        return Ok(c.value, ps);
      }
      var _, _, _ := GetToken();
      SamePeek(line, mid);
      var d := ParsePipe();
      if d.Err? {
        return Err(d.msg);
      }
      return Ok(Pipe(c.value, d.value), ps);
    }

    /** parseline's loop over '&'. */
    method Backs(c: Cmd<Span>) returns (d: Cmd<Span>)
      requires ps <= |line|
      modifies this
      ensures ps <= |line| && (d, ps) == ParseBacks(line, old(ps), c)
    {
      ghost var whole := ParseBacks(line, ps, c);
      d := c;
      ghost var start: nat := ps;
      var and := Peek({'&'});
      while and
        invariant start <= |line| && ps == SkipSpace(line, start) && and == Peeks(line, start, {'&'})
        invariant ParseBacks(line, start, d) == whole
        decreases |line| - ps
      {
        SamePeek(line, start);
        var _, _, _ := GetToken();
        d := Back(d);
        start := ps;
        and := Peek({'&'});
      }
    }

    method ParseLine() returns (r: Result<Cmd<Span>>)
      requires ps <= |line|
      modifies this
      ensures ps <= |line| && r == ShellGrammar.ParseLine(line, old(ps)) && (r.Ok? ==> ps == r.pos)
      decreases |line| - ps, 3
    {
      var c := ParsePipe();
      if c.Err? {
        return Err(c.msg);
      }
      var d := Backs(c.value);
      ghost var mid := ps;
      var semi := Peek({';'});
      if !semi {
        return Ok(d, ps);
      }
      var _, _, _ := GetToken();
      SamePeek(line, mid);
      var e := ParseLine();
      if e.Err? {
        return Err(e.msg);
      }
      return Ok(List(d, e.value), ps);
    }
  }

  /** A peek before a token changes nothing about it. */
  lemma SamePeek(s: string, i: nat)
    requires i <= |s|
    ensures ShellGrammar.GetToken(s, SkipSpace(s, i)) == ShellGrammar.GetToken(s, i)
  {
  }

  /** parsecmd: the parser's answer for a whole line, whose words are then cut out of the buffer. */
  method ParseCommand(buf: array<char>, line: string) returns (r: Result<Cmd<Span>>)
    requires NUL !in line && buf[..] == line + [NUL]
    modifies buf
    ensures r == ParseCmd(line)
    ensures r.Ok? ==> WordsOk(line, r.value) && CTexts(buf[..], r.value) == Texts(line, r.value)
  {
    var p := new Parser(line);
    r := p.ParseLine();
    if r.Err? {
      return;
    }
    var _ := p.Peek({});
    if p.ps != |line| {
      return Err("syntax");
    }
    LineWords(line, 0);
    Terminate(buf, r.value, line);
    r := Ok(r.value, |line|);
  }

  /** The redirections already found in front of those still to come. */
  function More(files: seq<File>, r: Result<seq<File>>): (x: Result<seq<File>>)
  {
    match r
    case Err(msg) => Err(msg)
    case Ok(rest, pos) => Ok(files + rest, pos)
  }

  lemma MoreNone(r: Result<seq<File>>)
    ensures More([], r) == r
  {
    if r.Ok? { assert [] + r.value == r.value; }
  }

  lemma MoreMore(files: seq<File>, f: File, r: Result<seq<File>>)
    ensures More(files + [f], r) == More(files, More([f], r))
  {
    if r.Ok? { assert files + [f] + r.value == files + ([f] + r.value); }
  }
}
