/** Every command tree can be written down so that the shell's parser reads it back. */
module ShellRender {
  import opened ShellGrammar

  /** A command with plain words. */
  datatype Tree =
    | TExec(args: seq<string>)
    | TRedir(cmd: Tree, redir: TRedirection)
    | TPipe(left: Tree, right: Tree)
    | TList(left: Tree, right: Tree)
    | TBack(cmd: Tree)

  datatype TRedirection = TRedirection(file: string, mode: nat, fd: nat)

  // ---- The tree of a parsed command ---------------------------------------------------------

  function PlainArgs(args: seq<Arg>): (r: seq<string>)
    ensures |r| == |args| && forall i | 0 <= i < |r| :: r[i] == args[i].word
  {
    seq(|args|, i requires 0 <= i < |args| => args[i].word)
  }

  function PlainRedir(r: Redirection): TRedirection {
    TRedirection(r.file.word, r.mode, r.fd)
  }

  function PlainRedirs(rs: seq<Redirection>): (r: seq<TRedirection>)
    ensures |r| == |rs| && forall i | 0 <= i < |r| :: r[i] == PlainRedir(rs[i])
  {
    seq(|rs|, i requires 0 <= i < |rs| => PlainRedir(rs[i]))
  }

  function Plain(cmd: Cmd): Tree {
    match cmd
    case Exec(args) => TExec(PlainArgs(args))
    case Redir(c, file, mode, fd) => TRedir(Plain(c), TRedirection(file.word, mode, fd))
    case Pipe(l, r) => TPipe(Plain(l), Plain(r))
    case List(l, r) => TList(Plain(l), Plain(r))
    case Back(c) => TBack(Plain(c))
  }

  // ---- Which trees there are ----------------------------------------------------------------

  predicate ValidWord(w: string) {
    w != [] && forall i | 0 <= i < |w| :: WordChar(w[i])
  }

  /** `<` opens descriptor 0 for reading, `>` and `>>` descriptor 1 for writing. */
  predicate ValidRedir(r: TRedirection) {
    ValidWord(r.file) && ((r.mode == O_RDONLY && r.fd == 0) || (r.mode == O_WRONLY_CREATE && r.fd == 1))
  }

  predicate ValidTree(t: Tree) {
    match t
    case TExec(args) => |args| < MAXARGS && forall i | 0 <= i < |args| :: ValidWord(args[i])
    case TRedir(c, r) => ValidTree(c) && ValidRedir(r)
    case TPipe(l, r) => ValidTree(l) && ValidTree(r)
    case TList(l, r) => ValidTree(l) && ValidTree(r)
    case TBack(c) => ValidTree(c)
  }

  // ---- Text of a tree -----------------------------------------------------------------------

  function ArgsText(ws: seq<string>): string {
    if ws == [] then [] else " " + ws[0] + ArgsText(ws[1..])
  }

  function RedirsText(rs: seq<TRedirection>): string {
    if rs == [] then [] else (if rs[0].fd == 0 then " < " else " > ") + rs[0].file + RedirsText(rs[1..])
  }

  function Amps(n: nat): string {
    if n == 0 then [] else " &" + Amps(n - 1)
  }

  /** A tree without the redirections around it, and those, the innermost first. */
  function Core(t: Tree): (c: Tree)
    ensures !c.TRedir? && (c == t || c < t) && (ValidTree(t) ==> ValidTree(c))
  {
    if t.TRedir? then Core(t.cmd) else t
  }

  function Around(t: Tree): (rs: seq<TRedirection>)
    ensures ValidTree(t) ==> forall i | 0 <= i < |rs| :: ValidRedir(rs[i])
  {
    if t.TRedir? then Around(t.cmd) + [t.redir] else []
  }

  /** A tree without its background marks, and how many there are. */
  function Front(t: Tree): (c: Tree)
    ensures !c.TBack? && (c == t || c < t) && (ValidTree(t) ==> ValidTree(c))
  {
    if t.TBack? then Front(t.cmd) else t
  }

  function Marks(t: Tree): nat {
    if t.TBack? then Marks(t.cmd) + 1 else 0
  }

  /** With parentheses unless it is a plain command with redirections. */
  function ExecText(t: Tree): string
    decreases t, if t.TPipe? || t.TList? || t.TBack? then 3 else 0
  {
    (if Core(t).TExec? then ArgsText(Core(t).args) else " (" + LineText(Core(t)) + " )") + RedirsText(Around(t))
  }

  function PipeText(t: Tree): string
    decreases t, if t.TList? || t.TBack? then 4 else 1
  {
    if t.TPipe? then ExecText(t.left) + " |" + PipeText(t.right) else ExecText(t)
  }

  function LineText(t: Tree): string
    decreases t, 2
  {
    if t.TList? then PipeText(Front(t.left)) + Amps(Marks(t.left)) + " ;" + LineText(t.right)
    else PipeText(Front(t)) + Amps(Marks(t))
  }

  // ---- Tokens of the text -------------------------------------------------------------------

  /** The text ends, or goes on with a space and one of the symbols. */
  predicate Follow(rest: string, symbols: string) {
    rest == [] || (|rest| >= 2 && rest[0] == ' ' && IsSymbol(rest[1]) && rest[1] in symbols)
  }

  lemma {:induction false} Skip(s: string)
    requires |s| > 0 && s[0] == ' ' && (|s| > 1 ==> !IsSpace(s[1]))
    ensures SkipSpace(s) == s[1..]
  {
  }

  lemma {:induction false} SkipFollow(rest: string, symbols: string)
    requires Follow(rest, symbols)
    ensures SkipSpace(rest) == if rest == [] then [] else rest[1..]
  {
    if rest != [] {
      Skip(rest);
    }
  }

  lemma {:induction false} WordEnds(w: string, rest: string)
    requires (forall i | 0 <= i < |w| :: WordChar(w[i])) && (rest == [] || !WordChar(rest[0]))
    ensures SkipWord(w + rest) == rest
  {
    if w == [] {
      assert w + rest == rest;
    } else {
      assert (w + rest)[1..] == w[1..] + rest;
      WordEnds(w[1..], rest);
    }
  }

  lemma {:induction false} LexWord(w: string, rest: string, s: string)
    requires ValidWord(w) && (rest == [] || rest[0] == ' ') && (s == w + rest || s == " " + w + rest)
    ensures var t := GetToken(s); t.tok == Word && t.arg.word == w && t.rest == SkipSpace(rest) && !Peek(s, "<>")
                                  && !Peek(s, "(") && !Peek(s, "|)&;")
  {
    var u := w + rest;
    assert u[0] == w[0] && WordChar(w[0]);
    if s != u {
      assert s == [' '] + u && s[1..] == u;
      Skip(s);
    }
    assert SkipSpace(s) == u;
    WordEnds(w, rest);
    assert u[..|u| - |rest|] == w;
  }

  lemma {:induction false} LexSymbol(c: char, rest: string, s: string)
    requires IsSymbol(c) && (c == '>' ==> rest == [] || rest[0] != '>') && (s == [c] + rest || s == [' ', c] + rest)
    ensures SkipSpace(s) == [c] + rest && GetToken(s).tok == Op(c) && GetToken(s).rest == SkipSpace(rest)
  {
    var u := [c] + rest;
    assert u[1..] == rest;
    if s != u {
      assert s == [' '] + u && s[1..] == u;
      Skip(s);
    }
  }

  // ---- Regrouping text ----------------------------------------------------------------------

  lemma ListSplit(p: string, a: string, l: string, rest: string)
    ensures (p + a + " ;" + l) + rest == p + (a + ([' ', ';'] + (l + rest)))
  {
  }

  lemma LineSplit(p: string, a: string, rest: string)
    ensures (p + a) + rest == p + (a + rest)
  {
  }

  lemma PipeSplit(e: string, p: string, rest: string)
    ensures (e + " |" + p) + rest == e + ([' ', '|'] + (p + rest))
  {
  }

  lemma BlockSplit(l: string, r: string, rest: string)
    ensures (" (" + l + " )" + r) + rest == [' ', '('] + (l + ([' ', ')'] + (r + rest)))
  {
  }

  lemma WordSplit(op: string, w: string, t: string, rest: string)
    ensures (op + w + t) + rest == op + w + (t + rest)
  {
  }

  // ---- Leading space does not matter --------------------------------------------------------

  lemma {:induction false} SkipTwice(s: string)
    ensures SkipSpace(SkipSpace(s)) == SkipSpace(s)
    ensures GetToken(SkipSpace(s)) == GetToken(s) && forall toks :: Peek(SkipSpace(s), toks) == Peek(s, toks)
  {
  }

  lemma {:induction false} RedirsSkip(s: string)
    ensures ParseRedirs(SkipSpace(s)) == ParseRedirs(s)
  {
    SkipTwice(s);
  }

  lemma {:induction false} ArgsSkip(s: string, args: seq<Arg>, rs: seq<Redirection>)
    ensures ParseArgs(SkipSpace(s), args, rs) == ParseArgs(s, args, rs)
  {
    SkipTwice(s);
  }

  // ---- Redirections and arguments -----------------------------------------------------------

  /** The text ends or goes on with a space. */
  predicate Spaced(rest: string) {
    rest == [] || rest[0] == ' '
  }

  predicate ValidRedirs(rs: seq<TRedirection>) {
    forall i | 0 <= i < |rs| :: ValidRedir(rs[i])
  }

  lemma RedirsSpaced(rs: seq<TRedirection>, rest: string)
    requires Spaced(rest)
    ensures Spaced(RedirsText(rs) + rest)
  {
  }

  lemma ArgsSpaced(ws: seq<string>, rest: string)
    requires Spaced(rest)
    ensures Spaced(ArgsText(ws) + rest)
  {
  }

  /** One redirection at the start of the text. */
  lemma {:induction false} OneRedir(r: TRedirection, tail: string, s: string)
    requires ValidRedir(r) && Spaced(tail) && s == (if r.fd == 0 then " < " else " > ") + r.file + tail
    ensures Peek(s, "<>")
    ensures GetToken(s).tok == Op(if r.fd == 0 then '<' else '>')
    ensures var f := GetToken(GetToken(s).rest); f.tok == Word && f.arg.word == r.file && f.rest == SkipSpace(tail)
  {
    var c := if r.fd == 0 then '<' else '>';
    var u := " " + r.file + tail;
    assert s == [' ', c] + u;
    LexSymbol(c, u, s);
    LexWord(r.file, tail, u);
    SkipTwice(u);
  }

  lemma {:induction false} RedirsStep(s: string, more: Redirected, rs: seq<TRedirection>)
    requires rs != [] && ValidRedir(rs[0]) && Peek(s, "<>") && GetToken(s).tok == Op(if rs[0].fd == 0 then '<' else '>')
    requires var f := GetToken(GetToken(s).rest);
              f.tok == Word && f.arg.word == rs[0].file && more == ParseRedirs(f.rest)
    requires more.Redirs? && PlainRedirs(more.rs) == rs[1..]
    ensures var r := ParseRedirs(s); r.Redirs? && PlainRedirs(r.rs) == rs && r.rest == more.rest
  {
    assert rs == [rs[0]] + rs[1..];
  }

  lemma {:induction false} RedirsOk(rs: seq<TRedirection>, rest: string)
    requires ValidRedirs(rs) && Spaced(rest) && !Peek(rest, "<>")
    ensures
      var r := ParseRedirs(RedirsText(rs) + rest);
      r.Redirs? && PlainRedirs(r.rs) == rs && r.rest == SkipSpace(rest)
  {
    if rs == [] {
      assert RedirsText(rs) + rest == rest;
    } else {
      var tail := RedirsText(rs[1..]) + rest;
      var s := RedirsText(rs) + rest;
      WordSplit(if rs[0].fd == 0 then " < " else " > ", rs[0].file, RedirsText(rs[1..]), rest);
      RedirsSpaced(rs[1..], rest);
      OneRedir(rs[0], tail, s);
      RedirsSkip(tail);
      RedirsOk(rs[1..], rest);
      RedirsStep(s, ParseRedirs(tail), rs);
    }
  }

  /** One word, with the redirections behind it. */
  lemma {:induction false} OneArg(w: string, tail: string, s: string, args: seq<Arg>, found: seq<Redirection>,
                                  more: Redirected) returns (arg: Arg)
    requires ValidWord(w) && Spaced(tail) && s == " " + w + tail && |args| + 1 < MAXARGS && more == ParseRedirs(tail)
      && more.Redirs?
    ensures arg.word == w && ParseArgs(s, args, found) == ParseArgs(more.rest, args + [arg], found + more.rs)
  {
    LexWord(w, tail, s);
    RedirsSkip(tail);
    arg := GetToken(s).arg;
  }

  lemma {:induction false} NoRedirs(ws: seq<string>, after: string, s: string)
    requires ws != [] && ValidWord(ws[0]) && Spaced(after) && s == ArgsText(ws) + after
    ensures ParseRedirs(s) == Redirs([], SkipSpace(s)) && !Peek(s, "(")
  {
    ArgsSpaced(ws[1..], after);
    WordSplit(" ", ws[0], ArgsText(ws[1..]), after);
    LexWord(ws[0], ArgsText(ws[1..]) + after, s);
  }

  /** The parser stops at what follows a command. */
  lemma {:induction false} ArgsStop(rest: string, args: seq<Arg>, found: seq<Redirection>)
    requires Follow(rest, "|)&;")
    ensures ParseArgs(rest, args, found) == Args(args, found, SkipSpace(rest)) && !Peek(rest, "<>") && !Peek(rest, "(")
  {
    SkipFollow(rest, "|)&;");
  }

  lemma {:induction false} ArgsOk(ws: seq<string>, rs: seq<TRedirection>, rest: string, after: string, args: seq<Arg>,
                                  found: seq<Redirection>)
    requires ws != [] && |args| + |ws| < MAXARGS && (forall i | 0 <= i < |ws| :: ValidWord(ws[i])) && ValidRedirs(rs)
      && Follow(rest, "|)&;")
    requires after == RedirsText(rs) + rest
    ensures
      var r := ParseArgs(ArgsText(ws) + after, args, found);
      r.Args? && PlainArgs(r.args) == PlainArgs(args) + ws && PlainRedirs(r.rs) == PlainRedirs(found) + rs
        && r.rest == SkipSpace(rest)
    decreases |ws|
  {
    var s, tail := ArgsText(ws) + after, ArgsText(ws[1..]) + after;
    WordSplit(" ", ws[0], ArgsText(ws[1..]), after);
    RedirsSpaced(rs, rest);
    ArgsSpaced(ws[1..], after);
    ArgsStop(rest, args, found);
    RedirsOk(rs, rest);
    if |ws| == 1 {
      assert tail == after;
      var more := ParseRedirs(after);
      var arg := OneArg(ws[0], tail, s, args, found, more);
      ArgsSkip(rest, args + [arg], found + more.rs);
      ArgsStop(rest, args + [arg], found + more.rs);
      LastPlain(args, arg, ws, found, more.rs, rs);
    } else {
      NoRedirs(ws[1..], after, tail);
      var arg := OneArg(ws[0], tail, s, args, found, Redirs([], SkipSpace(tail)));
      assert found + [] == found;
      ArgsSkip(tail, args + [arg], found);
      ArgsOk(ws[1..], rs, rest, after, args + [arg], found);
      NextPlain(args, arg, ws);
    }
  }

  lemma {:induction false} LastPlain(args: seq<Arg>, arg: Arg, ws: seq<string>, found: seq<Redirection>,
                                     more: seq<Redirection>, rs: seq<TRedirection>)
    requires ws == [arg.word] && PlainRedirs(more) == rs
    ensures PlainArgs(args + [arg]) == PlainArgs(args) + ws && PlainRedirs(found + more) == PlainRedirs(found) + rs
  {
  }

  lemma {:induction false} NextPlain(args: seq<Arg>, arg: Arg, ws: seq<string>)
    requires ws != [] && ws[0] == arg.word
    ensures PlainArgs(args + [arg]) + ws[1..] == PlainArgs(args) + ws
  {
  }

  // ---- Commands -----------------------------------------------------------------------------

  function TWrap(t: Tree, rs: seq<TRedirection>): Tree {
    if rs == [] then t else TRedir(TWrap(t, rs[..|rs| - 1]), rs[|rs| - 1])
  }

  lemma {:induction false} WrapPlain(cmd: Cmd, rs: seq<Redirection>)
    ensures Plain(Wrap(cmd, rs)) == TWrap(Plain(cmd), PlainRedirs(rs))
  {
    if rs != [] {
      WrapPlain(cmd, rs[..|rs| - 1]);
      assert PlainRedirs(rs)[..|rs| - 1] == PlainRedirs(rs[..|rs| - 1]);
    }
  }

  lemma {:induction false} CoreAround(t: Tree)
    ensures TWrap(Core(t), Around(t)) == t
  {
    if t.TRedir? {
      CoreAround(t.cmd);
      assert Around(t)[..|Around(t)| - 1] == Around(t.cmd);
    }
  }

  /** The parser read the whole text of `t` and left what follows. */
  predicate Reads(r: Parsed, t: Tree, rest: string) {
    r.Ok? && Plain(r.cmd) == t && r.rest == SkipSpace(rest)
  }

  lemma {:induction false} ExecPlain(s: string, first: Redirected, a: Args)
    requires !Peek(s, "(") && first == ParseRedirs(s) && first.Redirs? && a == ParseArgs(first.rest, [], first.rs)
      && a.Args?
    ensures ParseExec(s) == Ok(Wrap(Exec(a.args), a.rs), a.rest)
  {
  }

  lemma {:induction false} ExecBlock(s: string, inner: Parsed, more: Redirected)
    requires Peek(s, "(") && inner == ParseLine(After(s)) && inner.Ok? && Peek(inner.rest, ")")
    requires more == ParseRedirs(After(inner.rest)) && more.Redirs?
    ensures ParseExec(s) == Ok(Wrap(inner.cmd, more.rs), more.rest)
  {
  }

  /** No words, perhaps redirections. */
  lemma {:induction false} BareOk(rs: seq<TRedirection>, rest: string, s: string)
    requires ValidRedirs(rs) && Follow(rest, "|)&;") && s == RedirsText(rs) + rest
    ensures Reads(ParseExec(s), TWrap(TExec([]), rs), rest)
  {
    NoParen(rs, rest, s);
    ArgsStop(rest, [], []);
    RedirsOk(rs, rest);
    var first := ParseRedirs(s);
    ArgsSkip(rest, [], first.rs);
    ArgsStop(rest, [], first.rs);
    ExecPlain(s, first, ParseArgs(first.rest, [], first.rs));
    WrapPlain(Exec([]), first.rs);
    assert PlainArgs([]) == [];
  }

  lemma {:induction false} WordsOk(ws: seq<string>, rs: seq<TRedirection>, rest: string, after: string, s: string)
    requires ws != [] && |ws| < MAXARGS && (forall i | 0 <= i < |ws| :: ValidWord(ws[i])) && ValidRedirs(rs)
      && Follow(rest, "|)&;")
    requires after == RedirsText(rs) + rest && s == ArgsText(ws) + after
    ensures Reads(ParseExec(s), TWrap(TExec(ws), rs), rest)
  {
    RedirsSpaced(rs, rest);
    NoRedirs(ws, after, s);
    ArgsSkip(s, [], []);
    ArgsOk(ws, rs, rest, after, [], []);
    var a := ParseArgs(s, [], []);
    assert PlainArgs([]) + ws == ws && PlainRedirs([]) + rs == rs;
    ExecPlain(s, Redirs([], SkipSpace(s)), a);
    WrapPlain(Exec(a.args), a.rs);
  }

  /** A plain command with its redirections. */
  lemma {:induction false} SimpleOk(t: Tree, rest: string, s: string)
    requires ValidTree(t) && Core(t).TExec? && Follow(rest, "|)&;") && s == ExecText(t) + rest
    ensures Reads(ParseExec(s), t, rest)
  {
    var ws, rs := Core(t).args, Around(t);
    var after := RedirsText(rs) + rest;
    LineSplit(ArgsText(ws), RedirsText(rs), rest);
    CoreAround(t);
    if ws == [] {
      assert s == after;
      BareOk(rs, rest, s);
    } else {
      WordsOk(ws, rs, rest, after, s);
    }
  }

  lemma {:induction false} NoParen(rs: seq<TRedirection>, rest: string, s: string)
    requires ValidRedirs(rs) && Follow(rest, "|)&;") && s == RedirsText(rs) + rest
    ensures !Peek(s, "(")
  {
    if rs == [] {
      assert s == rest;
      SkipFollow(rest, "|)&;");
    } else {
      var c := if rs[0].fd == 0 then '<' else '>';
      var tail := " " + rs[0].file + RedirsText(rs[1..]) + rest;
      assert s == [' ', c] + tail;
      LexSymbol(c, tail, s);
    }
  }

  /** A command in parentheses with its redirections, once its line is read. */
  lemma {:induction false} BlockOk(core: Tree, rs: seq<TRedirection>, rest: string, after: string, close: string,
                                   inner: string, s: string)
    requires ValidRedirs(rs) && Follow(rest, "|)&;") && after == RedirsText(rs) + rest && close == [' ', ')'] + after
      && s == [' ', '('] + inner
    requires Reads(ParseLine(SkipSpace(inner)), core, close)
    ensures Reads(ParseExec(s), TWrap(core, rs), rest)
  {
    LexSymbol('(', inner, s);
    LexSymbol(')', after, close);
    SkipTwice(close);
    ArgsStop(rest, [], []);
    RedirsOk(rs, rest);
    RedirsSkip(after);
    var r, more := ParseLine(SkipSpace(inner)), ParseRedirs(after);
    ExecBlock(s, r, more);
    WrapPlain(r.cmd, more.rs);
  }

  // ---- Pipes and lists ----------------------------------------------------------------------

  lemma {:induction false} ExecSkip(s: string)
    ensures ParseExec(SkipSpace(s)) == ParseExec(s)
  {
    SkipTwice(s);
    RedirsSkip(s);
  }

  lemma {:induction false} PipeSkip(s: string)
    ensures ParsePipe(SkipSpace(s)) == ParsePipe(s)
  {
    ExecSkip(s);
  }

  lemma {:induction false} LineSkip(s: string)
    ensures ParseLine(SkipSpace(s)) == ParseLine(s)
  {
    PipeSkip(s);
  }

  lemma {:induction false} BacksSkip(cmd: Cmd, s: string)
    ensures ParseBacks(cmd, SkipSpace(s)) == ParseBacks(cmd, s)
  {
    SkipTwice(s);
  }

  function Backed(t: Tree, n: nat): Tree
    decreases n
  {
    if n == 0 then t else Backed(TBack(t), n - 1)
  }

  lemma {:induction false} BackedOut(t: Tree, n: nat)
    ensures Backed(TBack(t), n) == TBack(Backed(t, n))
    decreases n
  {
    if n > 0 {
      BackedOut(TBack(t), n - 1);
    }
  }

  lemma {:induction false} FrontMarks(t: Tree)
    ensures Backed(Front(t), Marks(t)) == t
  {
    if t.TBack? {
      FrontMarks(t.cmd);
      BackedOut(Front(t), Marks(t.cmd));
    }
  }

  lemma {:induction false} BacksStep(cmd: Cmd, tail: string, s: string)
    requires s == [' ', '&'] + tail
    ensures ParseBacks(cmd, s) == ParseBacks(Back(cmd), tail)
  {
    LexSymbol('&', tail, s);
    BacksSkip(Back(cmd), tail);
  }

  lemma {:induction false} BacksOk(n: nat, cmd: Cmd, rest: string, s: string)
    requires Follow(rest, ");") && s == Amps(n) + rest
    ensures var r := ParseBacks(cmd, s); r.Ok? && Plain(r.cmd) == Backed(Plain(cmd), n) && r.rest == SkipSpace(rest)
    decreases n
  {
    SkipFollow(rest, ");");
    if n == 0 {
      assert s == rest;
    } else {
      var tail := Amps(n - 1) + rest;
      assert s == [' ', '&'] + tail;
      BacksStep(cmd, tail, s);
      BacksOk(n - 1, Back(cmd), rest, tail);
    }
  }

  lemma {:induction false} AmpsFollow(n: nat, rest: string)
    requires Follow(rest, ");")
    ensures Follow(Amps(n) + rest, ")&;")
  {
    if n > 0 {
      var s := Amps(n) + rest;
      assert s == [' ', '&'] + (Amps(n - 1) + rest);
    }
  }

  lemma {:induction false} PipeEnd(s: string, t: Tree, rest: string)
    requires Reads(ParseExec(s), t, rest) && Follow(rest, ")&;")
    ensures Reads(ParsePipe(s), t, rest)
  {
    SkipFollow(rest, ")&;");
    SkipTwice(rest);
  }

  lemma {:induction false} PipeMore(s: string, l: Tree, r: Tree, tail: string, next: string, rest: string)
    requires next == [' ', '|'] + tail && Reads(ParseExec(s), l, next) && Reads(ParsePipe(tail), r, rest)
    ensures Reads(ParsePipe(s), TPipe(l, r), rest)
  {
    LexSymbol('|', tail, next);
    SkipTwice(next);
    PipeSkip(tail);
  }

  lemma {:induction false} LineEnd(s: string, t: Tree, rest: string, next: string)
    requires next == Amps(Marks(t)) + rest && Reads(ParsePipe(s), Front(t), next) && Follow(rest, ")")
    ensures Reads(ParseLine(s), t, rest)
  {
    var first := ParsePipe(s);
    BacksSkip(first.cmd, next);
    BacksOk(Marks(t), first.cmd, rest, next);
    FrontMarks(t);
    SkipFollow(rest, ")");
    SkipTwice(rest);
  }

  lemma {:induction false} LineUnfold(s: string, first: Parsed, b: Parsed, more: Parsed)
    requires first == ParsePipe(s) && first.Ok? && b == ParseBacks(first.cmd, first.rest) && Peek(b.rest, ";")
      && more == ParseLine(After(b.rest)) && more.Ok?
    ensures ParseLine(s) == Ok(List(b.cmd, more.cmd), more.rest)
  {
  }

  lemma {:induction false} SemiAfter(tail: string, semi: string)
    requires semi == [' ', ';'] + tail
    ensures Follow(semi, ");") && Peek(SkipSpace(semi), ";") && After(SkipSpace(semi)) == SkipSpace(tail)
  {
    LexSymbol(';', tail, semi);
    SkipTwice(semi);
  }

  lemma {:induction false} LineMore(s: string, l: Tree, r: Tree, next: string, semi: string, tail: string, rest: string)
    requires next == Amps(Marks(l)) + semi && semi == [' ', ';'] + tail && Reads(ParsePipe(s), Front(l), next)
      && Reads(ParseLine(tail), r, rest)
    ensures Reads(ParseLine(s), TList(l, r), rest)
  {
    var first := ParsePipe(s);
    SemiAfter(tail, semi);
    BacksSkip(first.cmd, next);
    BacksOk(Marks(l), first.cmd, semi, next);
    FrontMarks(l);
    LineSkip(tail);
    LineUnfold(s, first, ParseBacks(first.cmd, first.rest), ParseLine(tail));
  }

  lemma {:induction false} ExecOk(t: Tree, rest: string, s: string)
    requires ValidTree(t) && Follow(rest, "|)&;") && s == ExecText(t) + rest
    ensures Reads(ParseExec(s), t, rest)
    decreases |ExecText(t)|, 0
  {
    if Core(t).TExec? {
      SimpleOk(t, rest, s);
    } else {
      var after := RedirsText(Around(t)) + rest;
      var close := [' ', ')'] + after;
      var inner := LineText(Core(t)) + close;
      BlockSplit(LineText(Core(t)), RedirsText(Around(t)), rest);
      LineOk(Core(t), close, inner);
      LineSkip(inner);
      BlockOk(Core(t), Around(t), rest, after, close, inner, s);
      CoreAround(t);
    }
  }

  lemma {:induction false} PipeOk(t: Tree, rest: string, s: string)
    requires ValidTree(t) && Follow(rest, ")&;") && s == PipeText(t) + rest
    ensures Reads(ParsePipe(s), t, rest)
    decreases |PipeText(t)|, 1
  {
    if t.TPipe? {
      var tail := PipeText(t.right) + rest;
      var next := [' ', '|'] + tail;
      PipeSplit(ExecText(t.left), PipeText(t.right), rest);
      ExecOk(t.left, next, s);
      PipeOk(t.right, rest, tail);
      PipeMore(s, t.left, t.right, tail, next, rest);
    } else {
      ExecOk(t, rest, s);
      PipeEnd(s, t, rest);
    }
  }

  lemma {:induction false} LineOk(t: Tree, rest: string, s: string)
    requires ValidTree(t) && Follow(rest, ")") && s == LineText(t) + rest
    ensures Reads(ParseLine(s), t, rest)
    decreases |LineText(t)|, 2
  {
    if t.TList? {
      var tail := LineText(t.right) + rest;
      var semi := [' ', ';'] + tail;
      var next := Amps(Marks(t.left)) + semi;
      ListSplit(PipeText(Front(t.left)), Amps(Marks(t.left)), LineText(t.right), rest);
      AmpsFollow(Marks(t.left), semi);
      PipeOk(Front(t.left), next, s);
      LineOk(t.right, rest, tail);
      LineMore(s, t.left, t.right, next, semi, tail, rest);
    } else {
      var next := Amps(Marks(t)) + rest;
      LineSplit(PipeText(Front(t)), Amps(Marks(t)), rest);
      AmpsFollow(Marks(t), rest);
      PipeOk(Front(t), next, s);
      LineEnd(s, t, rest, next);
    }
  }

  /** The parser gives back every tree from its text. */
  lemma RoundTrip(t: Tree)
    requires ValidTree(t)
    ensures var r := ParseCmd(LineText(t)); r.Ok? && Plain(r.cmd) == t
  {
    assert LineText(t) + [] == LineText(t);
    LineOk(t, [], LineText(t));
  }
}
