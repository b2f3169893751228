/** Where the words of a parsed command are in the text. */
module ShellWords {
  import opened ShellGrammar
  import opened ShellRender

  /** The word from position `q` up to `eq`. */
  function ArgAt(text: string, q: nat, eq: nat): Arg
    requires q <= eq <= |text|
  {
    Arg(text[q..eq], |text| - q, |text| - eq)
  }

  /** The word is where its ends say, and the text ends there or goes on with something else. */
  predicate ArgOk(text: string, a: Arg) {
    && a.to < a.from <= |text| && text[|text| - a.from..|text| - a.to] == a.word && ValidWord(a.word)
    && (a.to > 0 ==> !WordChar(text[|text| - a.to]))
  }

  predicate ModeOk(mode: nat, fd: nat) {
    (mode == O_RDONLY && fd == 0) || (mode == O_WRONLY_CREATE && fd == 1)
  }

  /** Every word of the command is in the text; there are not too many. */
  predicate CmdOk(text: string, cmd: Cmd) {
    match cmd
    case Exec(args) => |args| < MAXARGS && forall i | 0 <= i < |args| :: ArgOk(text, args[i])
    case Redir(c, file, mode, fd) => CmdOk(text, c) && ArgOk(text, file) && ModeOk(mode, fd)
    case Pipe(l, r) => CmdOk(text, l) && CmdOk(text, r)
    case List(l, r) => CmdOk(text, l) && CmdOk(text, r)
    case Back(c) => CmdOk(text, c)
  }

  /** So what the parser accepts is a tree that can be written down. */
  lemma {:induction false} CmdIsTree(text: string, cmd: Cmd)
    requires CmdOk(text, cmd)
    ensures ValidTree(Plain(cmd))
    decreases cmd
  {
    match cmd
    case Exec(args) =>
    case Redir(c, file, mode, fd) => CmdIsTree(text, c);
    case Pipe(l, r) =>
      CmdIsTree(text, l);
      CmdIsTree(text, r);
    case List(l, r) =>
      CmdIsTree(text, l);
      CmdIsTree(text, r);
    case Back(c) => CmdIsTree(text, c);
  }

  // ---- What the grammar accepts -------------------------------------------------------------

  lemma {:induction false} WordChars(s: string, i: nat)
    requires i < |s| - |SkipWord(s)|
    ensures WordChar(s[i])
  {
    if i > 0 {
      WordChars(s[1..], i - 1);
    }
  }

  lemma TokenIsWord(s: string)
    requires GetToken(s).tok == Word
    ensures ValidWord(GetToken(s).arg.word)
  {
    var t := SkipSpace(s);
    forall i | 0 <= i < |t| - |SkipWord(t)| ensures WordChar(t[i]) {
      WordChars(t, i);
    }
  }

  predicate RedirsValid(rs: seq<Redirection>) {
    forall i | 0 <= i < |rs| :: ValidRedir(PlainRedir(rs[i]))
  }

  lemma {:induction false} RedirsParsed(s: string)
    requires ParseRedirs(s).Redirs?
    ensures RedirsValid(ParseRedirs(s).rs)
    decreases |s|
  {
    if Peek(s, "<>") {
      var op := GetToken(s);
      var file := GetToken(op.rest);
      TokenIsWord(op.rest);
      RedirsParsed(file.rest);
    }
  }

  lemma {:induction false} WrapValid(cmd: Cmd, rs: seq<Redirection>)
    requires ValidTree(Plain(cmd)) && RedirsValid(rs)
    ensures ValidTree(Plain(Wrap(cmd, rs)))
  {
    if rs != [] {
      var last := |rs| - 1;
      WrapValid(cmd, rs[..last]);
      assert ValidRedir(PlainRedir(rs[last]));
    }
  }

  predicate ArgsValid(args: seq<Arg>) {
    |args| < MAXARGS && forall i | 0 <= i < |args| :: ValidWord(args[i].word)
  }

  lemma {:induction false} ArgsParsed(s: string, args: seq<Arg>, rs: seq<Redirection>)
    requires ArgsValid(args) && RedirsValid(rs) && ParseArgs(s, args, rs).Args?
    ensures ArgsValid(ParseArgs(s, args, rs).args) && RedirsValid(ParseArgs(s, args, rs).rs)
    decreases |s|
  {
    var t := GetToken(s);
    if !Peek(s, "|)&;") && t.tok == Word {
      TokenIsWord(s);
      RedirsParsed(t.rest);
      ArgsParsed(ParseRedirs(t.rest).rest, args + [t.arg], rs + ParseRedirs(t.rest).rs);
    }
  }

  lemma {:induction false} ExecParsed(s: string)
    requires ParseExec(s).Ok?
    ensures ValidTree(Plain(ParseExec(s).cmd))
    decreases |s|, 0
  {
    if Peek(s, "(") {
      var inner := ParseLine(After(s));
      LineParsed(After(s));
      RedirsParsed(After(inner.rest));
      WrapValid(inner.cmd, ParseRedirs(After(inner.rest)).rs);
    } else {
      var first := ParseRedirs(s);
      RedirsParsed(s);
      var a := ParseArgs(first.rest, [], first.rs);
      ArgsParsed(first.rest, [], first.rs);
      WrapValid(Exec(a.args), a.rs);
    }
  }

  lemma {:induction false} PipeParsed(s: string)
    requires ParsePipe(s).Ok?
    ensures ValidTree(Plain(ParsePipe(s).cmd))
    decreases |s|, 1
  {
    ExecParsed(s);
    var left := ParseExec(s);
    if Peek(left.rest, "|") {
      PipeParsed(After(left.rest));
    }
  }

  lemma {:induction false} BacksParsed(cmd: Cmd, s: string)
    requires ValidTree(Plain(cmd))
    ensures ValidTree(Plain(ParseBacks(cmd, s).cmd))
    decreases |s|
  {
    if Peek(s, "&") {
      BacksParsed(Back(cmd), After(s));
    }
  }

  lemma {:induction false} LineParsed(s: string)
    requires ParseLine(s).Ok?
    ensures ValidTree(Plain(ParseLine(s).cmd))
    decreases |s|, 2
  {
    PipeParsed(s);
    var first := ParsePipe(s);
    BacksParsed(first.cmd, first.rest);
    var b := ParseBacks(first.cmd, first.rest);
    if Peek(b.rest, ";") {
      LineParsed(After(b.rest));
    }
  }

  /**
   * Whatever text the parser accepts, its tree is one of those that can be written down, and writing it down
   * and parsing that gives the same tree again.
   */
  lemma ParsedIsTree(s: string)
    requires ParseCmd(s).Ok?
    ensures var t := Plain(ParseCmd(s).cmd);
              ValidTree(t) && ParseCmd(LineText(t)).Ok? && Plain(ParseCmd(LineText(t)).cmd) == t
  {
    LineParsed(s);
    RoundTrip(Plain(ParseCmd(s).cmd));
  }

  // ---- nulterminate -------------------------------------------------------------------------

  /** How far from the end of the text the words of the command end. */
  function Ends(cmd: Cmd): set<nat> {
    match cmd
    case Exec(args) => set i | 0 <= i < |args| :: args[i].to
    case Redir(c, file, mode, fd) => Ends(c) + {file.to}
    case Pipe(l, r) => Ends(l) + Ends(r)
    case List(l, r) => Ends(l) + Ends(r)
    case Back(c) => Ends(c)
  }

  function Words(cmd: Cmd): set<Arg> {
    match cmd
    case Exec(args) => set i | 0 <= i < |args| :: args[i]
    case Redir(c, file, mode, fd) => Words(c) + {file}
    case Pipe(l, r) => Words(l) + Words(r)
    case List(l, r) => Words(l) + Words(r)
    case Back(c) => Words(c)
  }

  lemma {:induction false} WordsOk(text: string, cmd: Cmd)
    requires CmdOk(text, cmd)
    ensures forall a | a in Words(cmd) :: ArgOk(text, a) && a.to in Ends(cmd)
    ensures forall e | e in Ends(cmd) :: e <= |text| && (e > 0 ==> !WordChar(text[|text| - e]))
    decreases cmd
  {
    match cmd
    case Exec(args) =>
    case Redir(c, file, mode, fd) => WordsOk(text, c);
    case Pipe(l, r) =>
      WordsOk(text, l);
      WordsOk(text, r);
    case List(l, r) =>
      WordsOk(text, l);
      WordsOk(text, r);
    case Back(c) => WordsOk(text, c);
  }

  /** The C string at position `i`. */
  function CString(buf: seq<char>, i: nat): string
    requires i <= |buf|
    decreases |buf| - i
  {
    if i == |buf| || buf[i] == '\0' then [] else [buf[i]] + CString(buf, i + 1)
  }

  lemma {:induction false} CStringIs(buf: seq<char>, i: nat, j: nat)
    requires i <= j < |buf| && buf[j] == '\0' && forall k | i <= k < j :: buf[k] != '\0'
    ensures CString(buf, i) == buf[i..j]
    decreases j - i
  {
    if i < j {
      CStringIs(buf, i + 1, j);
      assert buf[i..j] == [buf[i]] + buf[i + 1..j];
    }
  }

  /** `buf` is the text and its NUL with a NUL at the end of every word. */
  ghost predicate Terminated(text: string, cmd: Cmd, buf: seq<char>) {
    |buf| == |text| + 1 && buf[|text|] == '\0'
    && forall i | 0 <= i < |text| :: buf[i] == if |text| - i in Ends(cmd) then '\0' else text[i]
  }

  /** After nulterminate every word of the command is a C string in the buffer. */
  lemma WordIntact(text: string, cmd: Cmd, buf: seq<char>, a: Arg)
    requires CmdOk(text, cmd) && (forall i | 0 <= i < |text| :: text[i] != '\0') && Terminated(text, cmd, buf)
      && a in Words(cmd)
    ensures a.from <= |text| && CString(buf, |text| - a.from) == a.word
  {
    WordsOk(text, cmd);
    var i, j := |text| - a.from, |text| - a.to;
    forall k | i <= k < j ensures buf[k] == text[k] {
      assert a.word[k - i] == text[k];
    }
    CStringIs(buf, i, j);
    assert buf[i..j] == text[i..j];
  }
}
