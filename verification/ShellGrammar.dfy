/** The shell's parser, sh.c: tokens and the grammar as functions of the text that is left. */
module ShellGrammar {
  /** Any character is whitespace, a symbol, NUL, or part of a word. */
  predicate IsSpace(c: char) {
    c == ' ' || c == '\t' || c == '\r' || c == '\n' || c == '\U{0B}'
  }

  predicate IsSymbol(c: char) {
    c == '<' || c == '|' || c == '>' || c == '&' || c == ';' || c == '(' || c == ')'
  }

  predicate WordChar(c: char) {
    !IsSpace(c) && !IsSymbol(c)
  }

  function SkipSpace(s: string): (r: string)
    ensures |r| <= |s| && (r != [] ==> !IsSpace(r[0]))
  {
    if s != [] && IsSpace(s[0]) then SkipSpace(s[1..]) else s
  }

  /** The text after the word at its start. */
  function SkipWord(s: string): (r: string)
    ensures |r| <= |s| && (r != [] ==> !WordChar(r[0]))
  {
    if s != [] && WordChar(s[0]) then SkipWord(s[1..]) else s
  }

  /** A word of the text. `from` and `to` say how far its two ends are from the end of the text. */
  datatype Arg = Arg(word: string, from: nat, to: nat)

  datatype Tok = End | Op(c: char) | Append | Word

  datatype Lexed = Lexed(tok: Tok, arg: Arg, rest: string)

  /** gettoken. */
  function GetToken(s: string): (r: Lexed)
    ensures |r.rest| <= |s| && (r.tok != End ==> |r.rest| < |s|) && (r.rest != [] ==> !IsSpace(r.rest[0]))
  {
    var t := SkipSpace(s);
    if t == [] then Lexed(End, Arg("", 0, 0), t)
    else if t[0] == '>' then
      if |t| > 1 && t[1] == '>' then Lexed(Append, Arg(t[..2], |t|, |t| - 2), SkipSpace(t[2..]))
      else Lexed(Op('>'), Arg(t[..1], |t|, |t| - 1), SkipSpace(t[1..]))
    else if IsSymbol(t[0]) then Lexed(Op(t[0]), Arg(t[..1], |t|, |t| - 1), SkipSpace(t[1..]))
    else
      var u := SkipWord(t);
      Lexed(Word, Arg(t[..|t| - |u|], |t|, |u|), SkipSpace(u))
  }

  /** peek. */
  predicate Peek(s: string, toks: string) {
    var t := SkipSpace(s);
    t != [] && t[0] in toks
  }

  /** The text after the token that peek saw. */
  function After(s: string): (r: string)
    requires SkipSpace(s) != []
    ensures |r| < |s|
  {
    GetToken(s).rest
  }

  // ---- Commands -----------------------------------------------------------------------------

  datatype Cmd =
    | Exec(args: seq<Arg>)
    | Redir(cmd: Cmd, file: Arg, mode: nat, fd: nat)
    | Pipe(left: Cmd, right: Cmd)
    | List(left: Cmd, right: Cmd)
    | Back(cmd: Cmd)

  datatype Why = MissingFile | MissingParen | Syntax | TooManyArgs

  datatype Parsed = Ok(cmd: Cmd, rest: string) | Fail(why: Why)

  const MAXARGS: nat := 10
  const O_RDONLY: nat := 0
  const O_WRONLY_CREATE: nat := 0x201

  /** One redirection: its file with the mode and descriptor for its operator. */
  datatype Redirection = Redirection(file: Arg, mode: nat, fd: nat)

  datatype Redirected = Redirs(rs: seq<Redirection>, rest: string) | NoFile

  /** parseredirs, as the list of what it adds around a command. */
  function ParseRedirs(s: string): (r: Redirected)
    ensures r.Redirs? ==> |r.rest| <= |s|
    decreases |s|
  {
    if !Peek(s, "<>") then Redirs([], SkipSpace(s))
    else
      var op := GetToken(s);
      var file := GetToken(op.rest);
      if file.tok != Word then NoFile
      else
        var more := ParseRedirs(file.rest);
        if more.NoFile? then NoFile
        else
          var r := if op.tok == Op('<') then Redirection(file.arg, O_RDONLY, 0)
            else Redirection(file.arg, O_WRONLY_CREATE, 1);
          Redirs([r] + more.rs, more.rest)
  }

  /** The redirections around a command, the first one innermost. */
  function Wrap(cmd: Cmd, rs: seq<Redirection>): Cmd {
    if rs == [] then cmd
    else
      var last := rs[|rs| - 1];
      Redir(Wrap(cmd, rs[..|rs| - 1]), last.file, last.mode, last.fd)
  }

  datatype Args = Args(args: seq<Arg>, rs: seq<Redirection>, rest: string) | NoArgs(why: Why)

  /** parseexec's loop, with the arguments and redirections so far. */
  function ParseArgs(s: string, args: seq<Arg>, rs: seq<Redirection>): (r: Args)
    ensures r.Args? ==> |r.rest| <= |s|
    decreases |s|
  {
    if Peek(s, "|)&;") then Args(args, rs, SkipSpace(s))
    else
      var t := GetToken(s);
      if t.tok == End then Args(args, rs, t.rest)
      else if t.tok != Word then NoArgs(Syntax)
      else if |args| + 1 >= MAXARGS then NoArgs(TooManyArgs)
      else
        var more := ParseRedirs(t.rest);
        if more.NoFile? then NoArgs(MissingFile) else ParseArgs(more.rest, args + [t.arg], rs + more.rs)
  }

  /** parseexec, with parseblock. */
  function ParseExec(s: string): (r: Parsed)
    ensures r.Ok? ==> |r.rest| <= |s|
    decreases |s|, 0
  {
    if Peek(s, "(") then
      var inner := ParseLine(After(s));
      if inner.Fail? then inner
      else if !Peek(inner.rest, ")") then Fail(MissingParen)
      else
        var more := ParseRedirs(After(inner.rest));
        if more.NoFile? then Fail(MissingFile) else Ok(Wrap(inner.cmd, more.rs), more.rest)
    else
      var first := ParseRedirs(s);
      if first.NoFile? then Fail(MissingFile)
      else
        var a := ParseArgs(first.rest, [], first.rs);
        if a.NoArgs? then Fail(a.why) else Ok(Wrap(Exec(a.args), a.rs), a.rest)
  }

  /** parsepipe. */
  function ParsePipe(s: string): (r: Parsed)
    ensures r.Ok? ==> |r.rest| <= |s|
    decreases |s|, 1
  {
    var left := ParseExec(s);
    if left.Fail? || !Peek(left.rest, "|") then (if left.Fail? then left else Ok(left.cmd, SkipSpace(left.rest)))
    else
      var right := ParsePipe(After(left.rest));
      if right.Fail? then right else Ok(Pipe(left.cmd, right.cmd), right.rest)
  }

  /** parseline's loop over `&`. */
  function ParseBacks(cmd: Cmd, s: string): (r: Parsed)
    ensures r.Ok? && |r.rest| <= |s|
    decreases |s|
  {
    if Peek(s, "&") then ParseBacks(Back(cmd), After(s)) else Ok(cmd, SkipSpace(s))
  }

  /** parseline. */
  function ParseLine(s: string): (r: Parsed)
    ensures r.Ok? ==> |r.rest| <= |s|
    decreases |s|, 2
  {
    var first := ParsePipe(s);
    if first.Fail? then first
    else
      var b := ParseBacks(first.cmd, first.rest);
      if Peek(b.rest, ";") then
        var more := ParseLine(After(b.rest));
        if more.Fail? then more else Ok(List(b.cmd, more.cmd), more.rest)
      else Ok(b.cmd, SkipSpace(b.rest))
  }

  /** parsecmd, up to nulterminate. */
  function ParseCmd(s: string): Parsed {
    var r := ParseLine(s);
    if r.Ok? && SkipSpace(r.rest) != [] then Fail(Syntax) else r
  }
}
