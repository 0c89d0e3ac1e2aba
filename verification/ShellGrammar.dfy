/** The shell's tokenizer and recursive-descent parser (sh.c) as functions of the line and a cursor.
    Words are kept as the source keeps them, by the positions of their first
    character and of the one after their last. */
module ShellGrammar {

  const MAXARGS := 10
  const NUL: char := '\0'
  const O_RDONLY := 0
  const O_WRONLY_CREATE := 0x201

  /** A command tree over words of type W. */
  datatype Cmd<W> =
    | Exec(argv: seq<W>)
    | Redir(cmd: Cmd<W>, file: W, mode: nat, fd: nat)
    | Pipe(left: Cmd<W>, right: Cmd<W>)
    | List(first: Cmd<W>, rest: Cmd<W>)
    | Back(job: Cmd<W>)

  datatype Span = Span(q: nat, eq: nat)

  datatype Result<T> = Ok(value: T, pos: nat) | Err(msg: string)

  // ----- tokens -------------------------------------------------------------------------------

  predicate IsSpace(c: char) { c == ' ' || c == '\t' || c == '\r' || c == '\n' || c == '\U{000B}' }

  predicate IsSymbol(c: char) { c == '<' || c == '|' || c == '>' || c == '&' || c == ';' || c == '(' || c == ')' }

  predicate IsWordChar(c: char) { c != NUL && !IsSpace(c) && !IsSymbol(c) }

  /** The line as C sees it: a NUL behind the last character. */
  function CharAt(s: string, i: nat): (c: char) { if i < |s| then s[i] else NUL }

  function SkipSpace(s: string, i: nat): (j: nat)
    requires i <= |s|
    ensures i <= j <= |s| && !IsSpace(CharAt(s, j))
    decreases |s| - i
  {
    if i < |s| && IsSpace(s[i]) then SkipSpace(s, i + 1) else i
  }

  function WordEnd(s: string, i: nat): (j: nat)
    requires i <= |s|
    ensures i <= j <= |s| && (i < |s| && !IsSpace(s[i]) && !IsSymbol(s[i]) ==> i < j)
    decreases |s| - i
  {
    if i < |s| && !IsSpace(s[i]) && !IsSymbol(s[i]) then WordEnd(s, i + 1) else i
  }

  lemma {:induction false} WordEndIs(s: string, i: nat)
    requires i <= |s|
    ensures forall x :: i <= x < WordEnd(s, i) ==> !IsSpace(s[x]) && !IsSymbol(s[x])
    ensures WordEnd(s, i) < |s| ==> IsSpace(s[WordEnd(s, i)]) || IsSymbol(s[WordEnd(s, i)])
    decreases |s| - i
  {
    if i < |s| && !IsSpace(s[i]) && !IsSymbol(s[i]) { WordEndIs(s, i + 1); }
  }

  datatype Token = Token(kind: char, q: nat, eq: nat, next: nat)

  /** What kind of token starts at q, which is no space, and where it ends. */
  function KindAt(s: string, q: nat): (r: (char, nat))
    requires q <= |s| && !IsSpace(CharAt(s, q))
    ensures q <= r.1 <= |s| && (r.0 != NUL ==> q < r.1)
  {
    var c := CharAt(s, q);
    if c == NUL then (NUL, q)
    else if c == '>' then if CharAt(s, q + 1) == '>' then ('+', q + 2) else ('>', q + 1)
    else if IsSymbol(c) then (c, q + 1)
    else ('a', WordEnd(s, q))
  }

  function GetToken(s: string, i: nat): (t: Token)
    requires i <= |s|
    ensures i <= t.q <= t.eq <= t.next <= |s|
    ensures t.kind != NUL ==> i < t.next
  {
    var q := SkipSpace(s, i);
    var (kind, eq) := KindAt(s, q);
    Token(kind, q, eq, SkipSpace(s, eq))
  }

  /** Whether one of toks comes next. */
  predicate Peeks(s: string, i: nat, toks: set<char>)
    requires i <= |s|
  {
    CharAt(s, SkipSpace(s, i)) != NUL && CharAt(s, SkipSpace(s, i)) in toks
  }

  // ----- the parser ---------------------------------------------------------------------------

  datatype File = File(name: Span, mode: nat, fd: nat)

  /** parseredirs' loop: the redirections that come next. */
  function ParseRedirs(s: string, i: nat): (r: Result<seq<File>>)
    requires i <= |s|
    ensures r.Ok? ==> i <= r.pos <= |s|
    decreases |s| - i
  {
    var j := SkipSpace(s, i);
    if !Peeks(s, i, {'<', '>'}) then Ok([], j)
    else
      var t := GetToken(s, j);
      var f := GetToken(s, t.next);
      if f.kind != 'a' then Err("missing file for redirection")
      else
        match ParseRedirs(s, f.next)
        case Err(msg) => Err(msg)
        case Ok(more, pos) =>
          var file := if t.kind == '<' then File(Span(f.q, f.eq), O_RDONLY, 0)
            else File(Span(f.q, f.eq), O_WRONLY_CREATE, 1);
          Ok([file] + more, pos)
  }

  /** Each redirection goes around what was parsed before it. */
  function Wrap(c: Cmd<Span>, files: seq<File>): (r: Cmd<Span>)
  {
    if files == [] then c
    else
      var f := files[|files| - 1];
      Redir(Wrap(c, files[..|files| - 1]), f.name, f.mode, f.fd)
  }

  /** parseexec's loop, with the arguments and redirections so far. Arguments after a redirection go to
      the innermost command. */
  function ParseArgs(s: string, i: nat, args: seq<Span>, files: seq<File>): (r: Result<Cmd<Span>>)
    requires i <= |s|
    ensures r.Ok? ==> i <= r.pos <= |s|
    decreases |s| - i
  {
    var j := SkipSpace(s, i);
    if Peeks(s, i, {'|', ')', '&', ';'}) then Ok(Wrap(Exec(args), files), j)
    else
      var t := GetToken(s, j);
      if t.kind == NUL then Ok(Wrap(Exec(args), files), t.next)
      else if t.kind != 'a' then Err("syntax")
      else if |args| + 1 >= MAXARGS then Err("too many args")
      else
        match ParseRedirs(s, t.next)
        case Err(msg) => Err(msg)
        case Ok(more, pos) => ParseArgs(s, pos, args + [Span(t.q, t.eq)], files + more)
  }

  function ParseExec(s: string, i: nat): (r: Result<Cmd<Span>>)
    requires i <= |s|
    ensures r.Ok? ==> i <= r.pos <= |s|
    decreases |s| - i, 1
  {
    if Peeks(s, i, {'('}) then ParseBlock(s, SkipSpace(s, i))
    else
      match ParseRedirs(s, SkipSpace(s, i))
      case Err(msg) => Err(msg)
      case Ok(files, pos) => ParseArgs(s, pos, [], files)
  }

  function ParseBlock(s: string, i: nat): (r: Result<Cmd<Span>>)
    requires i <= |s|
    ensures r.Ok? ==> i <= r.pos <= |s|
    decreases |s| - i, 0
  {
    if !Peeks(s, i, {'('}) then Err("parseblock") else CloseBlock(s, ParseLine(s, GetToken(s, i).next))
  }

  /** parseblock behind the commands inside the parentheses. */
  function CloseBlock(s: string, c: Result<Cmd<Span>>): (r: Result<Cmd<Span>>)
    requires c.Ok? ==> c.pos <= |s|
    ensures r.Ok? ==> c.Ok? && c.pos <= r.pos <= |s|
  {
    if c.Err? then c
    else if !Peeks(s, c.pos, {')'}) then Err("syntax - missing )")
    else
      match ParseRedirs(s, GetToken(s, c.pos).next)
      case Err(msg) => Err(msg)
      case Ok(files, end) => Ok(Wrap(c.value, files), end)
  }

  function ParsePipe(s: string, i: nat): (r: Result<Cmd<Span>>)
    requires i <= |s|
    ensures r.Ok? ==> i <= r.pos <= |s|
    decreases |s| - i, 2
  {
    match ParseExec(s, i)
    case Err(msg) => Err(msg)
    case Ok(c, pos) =>
      if !Peeks(s, pos, {'|'}) then Ok(c, SkipSpace(s, pos))
      else
        match ParsePipe(s, GetToken(s, pos).next)
        case Err(msg) => Err(msg)
        case Ok(d, end) => Ok(Pipe(c, d), end)
  }

  /** parseline's loop over '&'. */
  function ParseBacks(s: string, i: nat, c: Cmd<Span>): (r: (Cmd<Span>, nat))
    requires i <= |s|
    ensures i <= r.1 <= |s| && !IsSpace(CharAt(s, r.1))
    decreases |s| - i
  {
    if Peeks(s, i, {'&'}) then ParseBacks(s, GetToken(s, i).next, Back(c)) else (c, SkipSpace(s, i))
  }

  function ParseLine(s: string, i: nat): (r: Result<Cmd<Span>>)
    requires i <= |s|
    ensures r.Ok? ==> i <= r.pos <= |s|
    decreases |s| - i, 3
  {
    match ParsePipe(s, i)
    case Err(msg) => Err(msg)
    case Ok(c, pos) =>
      var (d, p) := ParseBacks(s, pos, c);
      if !Peeks(s, p, {';'}) then Ok(d, p)
      else
        match ParseLine(s, GetToken(s, p).next)
        case Err(msg) => Err(msg)
        case Ok(e, end) => Ok(List(d, e), end)
  }

  /** parsecmd, before the strings are terminated. */
  function ParseCmd(s: string): (r: Result<Cmd<Span>>)
  {
    match ParseLine(s, 0)
    case Err(msg) => Err(msg)
    case Ok(c, pos) => if SkipSpace(s, pos) != |s| then Err("syntax") else Ok(c, |s|)
  }
}
