/** sh.c's parser as it runs: positions in one text, loops over tokens, and nulterminate in the buffer. */
module Shell {
  import opened ShellGrammar
  import opened ShellWords
  import ShellRender

  method SkipSpaces(text: string, i: nat) returns (j: nat)
    requires i <= |text|
    ensures i <= j <= |text| && SkipSpace(text[i..]) == text[j..]
  {
    j := i;
    while j < |text| && IsSpace(text[j])
      invariant i <= j <= |text| && SkipSpace(text[i..]) == SkipSpace(text[j..])
    {
      assert text[j..][1..] == text[j + 1..];
      j := j + 1;
    }
  }

  method SkipWordChars(text: string, i: nat) returns (j: nat)
    requires i <= |text|
    ensures i <= j <= |text| && SkipWord(text[i..]) == text[j..]
    ensures (forall k | i <= k < j :: WordChar(text[k])) && (j < |text| ==> !WordChar(text[j]))
  {
    j := i;
    while j < |text| && !IsSpace(text[j]) && !IsSymbol(text[j])
      invariant i <= j <= |text| && SkipWord(text[i..]) == SkipWord(text[j..]) && forall k | i <= k < j ::
                WordChar(text[k])
    {
      assert text[j..][1..] == text[j + 1..];
      j := j + 1;
    }
  }

  /** gettoken, from position `ps`: the token, its two ends, and the position after it. */
  method GettokenAt(text: string, ps: nat) returns (tok: Tok, q: nat, eq: nat, next: nat)
    requires ps <= |text|
    ensures ps <= q <= eq <= next <= |text| && (tok != End ==> ps < next)
    ensures GetToken(text[ps..]) == Lexed(tok, ArgAt(text, q, eq), text[next..])
    ensures tok == Word ==> ArgOk(text, ArgAt(text, q, eq))
  {
    q := SkipSpaces(text, ps);
    eq := q;
    if q == |text| {
      tok := End;
      TokenEnd(text, ps);
    } else if text[q] == '>' {
      eq := q + 1;
      tok := Op('>');
      if eq < |text| && text[eq] == '>' {
        tok, eq := Append, q + 2;
      }
      TokenSymbol(text, ps, q, eq, tok);
    } else if IsSymbol(text[q]) {
      tok, eq := Op(text[q]), q + 1;
      TokenSymbol(text, ps, q, eq, tok);
    } else {
      tok := Word;
      eq := SkipWordChars(text, q);
      TokenWord(text, ps, q, eq);
      ArgAtOk(text, q, eq);
    }
    next := SkipSpaces(text, eq);
  }

  lemma {:induction false} TokenSymbol(text: string, ps: nat, q: nat, eq: nat, tok: Tok)
    requires ps <= q < eq <= |text| && SkipSpace(text[ps..]) == text[q..] && IsSymbol(text[q])
    requires if text[q] == '>' && q + 1 < |text| && text[q + 1] == '>' then tok == Append && eq == q + 2
      else tok == Op(text[q]) && eq == q + 1
    ensures GetToken(text[ps..]) == Lexed(tok, ArgAt(text, q, eq), SkipSpace(text[eq..]))
  {
    Slices(text, q, eq, eq - q);
  }

  lemma Slices(text: string, q: nat, eq: nat, n: nat)
    requires q <= eq <= |text| && n == eq - q
    ensures text[q..][n..] == text[eq..] && text[q..][..n] == text[q..eq]
  {
  }

  lemma {:induction false} TokenWord(text: string, ps: nat, q: nat, eq: nat)
    requires ps <= q < eq <= |text| && SkipSpace(text[ps..]) == text[q..] && SkipWord(text[q..]) == text[eq..]
      && WordChar(text[q])
    ensures GetToken(text[ps..]) == Lexed(Word, ArgAt(text, q, eq), SkipSpace(text[eq..]))
  {
    Slices(text, q, eq, eq - q);
  }

  lemma {:induction false} ArgAtOk(text: string, q: nat, eq: nat)
    requires q < eq <= |text| && (forall k | q <= k < eq :: WordChar(text[k])) && (eq < |text| ==> !WordChar(text[eq]))
    ensures ArgOk(text, ArgAt(text, q, eq))
  {
    var w := text[q..eq];
    forall i | 0 <= i < |w| ensures WordChar(w[i]) {
      assert w[i] == text[q + i];
    }
  }

  lemma {:induction false} TokenEnd(text: string, ps: nat)
    requires ps <= |text| && SkipSpace(text[ps..]) == text[|text|..]
    ensures GetToken(text[ps..]) == Lexed(End, ArgAt(text, |text|, |text|), SkipSpace(text[|text|..]))
  {
  }

  /** peek: the position after leading space, and whether one of the symbols is there. */
  method PeekAt(text: string, ps: nat, toks: string) returns (there: bool, next: nat)
    requires ps <= |text|
    ensures ps <= next <= |text| && text[next..] == SkipSpace(text[ps..]) && there == Peek(text[ps..], toks)
    ensures SkipSpace(text[next..]) == text[next..] && there == Peek(text[next..], toks)
  {
    next := SkipSpaces(text, ps);
    there := next < |text| && text[next] in toks;
  }

  /** parseredirs: the redirections from position `ps` on, the first one innermost. */
  method ParseRedirsAt(text: string, ps: nat) returns (ok: bool, rs: seq<Redirection>, next: nat)
    requires ps <= |text|
    ensures ps <= next <= |text| && ParseRedirs(text[ps..]) == if ok then Redirs(rs, text[next..]) else NoFile
    ensures RedirsIn(text, rs)
  {
    ok, rs := true, [];
    var more;
    more, next := PeekAt(text, ps, "<>");
    RedirsPeeked(text, ps, next);
    while more
      invariant ps <= next <= |text| && more == Peek(text[next..], "<>") && SkipSpace(text[next..]) == text[next..]
      invariant RedirsIn(text, rs) && ParseRedirs(text[ps..]) == Prepend(rs, ParseRedirs(text[next..]))
      decreases |text| - next
    {
      var tok, q, eq, i := GettokenAt(text, next);
      var tok2, q2, eq2, j := GettokenAt(text, i);
      if tok2 != Word {
        return false, rs, next;
      }
      var file := ArgAt(text, q2, eq2);
      var r := if tok == Op('<') then Redirection(file, O_RDONLY, 0) else Redirection(file, O_WRONLY_CREATE, 1);
      RedirsNext(text[next..], text[i..], text[j..], r);
      var n;
      more, n := PeekAt(text, j, "<>");
      RedirsRound(text, ps, next, j, n, rs, r);
      rs, next := rs + [r], n;
    }
    assert rs + [] == rs;
  }

  function Prepend(rs: seq<Redirection>, r: Redirected): Redirected {
    if r.NoFile? then NoFile else Redirs(rs + r.rs, r.rest)
  }

  predicate RedirsIn(text: string, rs: seq<Redirection>) {
    forall i | 0 <= i < |rs| :: ArgOk(text, rs[i].file) && ModeOk(rs[i].mode, rs[i].fd)
  }

  lemma {:induction false} RedirsPeeked(text: string, ps: nat, next: nat)
    requires ps <= next <= |text| && text[next..] == SkipSpace(text[ps..])
    ensures ParseRedirs(text[ps..]) == ParseRedirs(text[next..]) == Prepend([], ParseRedirs(text[next..]))
  {
    ShellRender.RedirsSkip(text[ps..]);
    var r := ParseRedirs(text[next..]);
    assert r.Redirs? ==> [] + r.rs == r.rs;
  }

  lemma {:induction false} RedirsNext(s: string, t: string, u: string, r: Redirection)
    requires Peek(s, "<>") && GetToken(s).rest == t
    requires var f := GetToken(t);
      f.tok == Word && f.rest == u && r == if GetToken(s).tok == Op('<') then Redirection(f.arg, O_RDONLY, 0)
        else Redirection(f.arg, O_WRONLY_CREATE, 1)
    ensures ParseRedirs(s) == Prepend([r], ParseRedirs(u))
  {
  }

  lemma {:induction false} RedirsRound(text: string, ps: nat, next: nat, j: nat, n: nat, rs: seq<Redirection>,
                                       r: Redirection)
    requires ps <= next <= j <= n <= |text| && text[n..] == SkipSpace(text[j..])
      && ParseRedirs(text[ps..]) == Prepend(rs, ParseRedirs(text[next..]))
    requires ParseRedirs(text[next..]) == Prepend([r], ParseRedirs(text[j..]))
    ensures ParseRedirs(text[ps..]) == Prepend(rs + [r], ParseRedirs(text[n..]))
  {
    PrependTwice(rs, r, ParseRedirs(text[j..]));
    RedirsPeeked(text, j, n);
  }

  lemma PrependTwice(rs: seq<Redirection>, r: Redirection, x: Redirected)
    ensures Prepend(rs, Prepend([r], x)) == Prepend(rs + [r], x)
  {
    if x.Redirs? {
      assert rs + ([r] + x.rs) == rs + [r] + x.rs;
    }
  }

  // ---- Commands -----------------------------------------------------------------------------

  datatype Outcome = Parse(cmd: Cmd, next: nat) | Failed(why: Why)

  /** The method at a position did what the grammar says of the text from there. */
  predicate Matches(text: string, r: Outcome, p: Parsed) {
    if r.Failed? then p == Fail(r.why) else r.next <= |text| && p == Ok(r.cmd, text[r.next..]) && CmdOk(text, r.cmd)
  }

  lemma {:induction false} WrapOk(text: string, cmd: Cmd, rs: seq<Redirection>)
    requires CmdOk(text, cmd) && RedirsIn(text, rs)
    ensures CmdOk(text, Wrap(cmd, rs))
  {
    if rs != [] {
      WrapOk(text, cmd, rs[..|rs| - 1]);
    }
  }

  /** parseexec's loop from position `ps`, after the redirections `found`. */
  method ParseArgsAt(text: string, ps: nat, found: seq<Redirection>) returns (r: Outcome)
    requires ps <= |text| && RedirsIn(text, found)
    ensures r.Parse? ==> ps <= r.next
    ensures Matches(text, r, Finished(ParseArgs(text[ps..], [], found)))
  {
    var args: seq<Arg>, rs := [], found;
    var stop, i := PeekAt(text, ps, "|)&;");
    ShellRender.ArgsSkip(text[ps..], args, rs);
    while !stop
      invariant ps <= i <= |text| && stop == Peek(text[i..], "|)&;") && SkipSpace(text[i..]) == text[i..]
      invariant |args| < MAXARGS && (forall k | 0 <= k < |args| :: ArgOk(text, args[k])) && RedirsIn(text, rs)
      invariant ParseArgs(text[ps..], [], found) == ParseArgs(text[i..], args, rs)
      decreases |text| - i
    {
      var tok, q, eq, j := GettokenAt(text, i);
      if tok == End {
        WrapOk(text, Exec(args), rs);
        return Parse(Wrap(Exec(args), rs), j);
      }
      if tok != Word {
        return Failed(Syntax);
      }
      if |args| + 1 >= MAXARGS {
        return Failed(TooManyArgs);
      }
      var ok, more, k := ParseRedirsAt(text, j);
      if !ok {
        return Failed(MissingFile);
      }
      args, rs := args + [ArgAt(text, q, eq)], rs + more;
      stop, i := PeekAt(text, k, "|)&;");
      ShellRender.ArgsSkip(text[k..], args, rs);
    }
    WrapOk(text, Exec(args), rs);
    return Parse(Wrap(Exec(args), rs), i);
  }

  /** The command of parseexec's words and redirections. */
  function Finished(a: Args): Parsed {
    if a.NoArgs? then Fail(a.why) else Ok(Wrap(Exec(a.args), a.rs), a.rest)
  }

  /** parseexec. */
  method ParseExecAt(text: string, ps: nat) returns (r: Outcome)
    requires ps <= |text|
    ensures (r.Parse? ==> ps <= r.next) && Matches(text, r, ParseExec(text[ps..]))
    decreases |text| - ps, 1
  {
    var block, i := PeekAt(text, ps, "(");
    ShellRender.ExecSkip(text[ps..]);
    if block {
      r := ParseBlockAt(text, i);
      return;
    }
    var ok, found, j := ParseRedirsAt(text, i);
    if !ok {
      return Failed(MissingFile);
    }
    r := ParseArgsAt(text, j, found);
  }

  /** parseblock, at a parenthesis. */
  method ParseBlockAt(text: string, ps: nat) returns (r: Outcome)
    requires ps <= |text| && Peek(text[ps..], "(")
    ensures (r.Parse? ==> ps <= r.next) && Matches(text, r, ParseExec(text[ps..]))
    decreases |text| - ps, 0
  {
    var tok, q, eq, i := GettokenAt(text, ps);
    r := ParseLineAt(text, i);
    if r.Failed? {
      return;
    }
    var cmd := r.cmd;
    var there, j := PeekAt(text, r.next, ")");
    if !there {
      return Failed(MissingParen);
    }
    ShellRender.SkipTwice(text[r.next..]);
    var tok2, q2, eq2, k := GettokenAt(text, j);
    var ok, rs, n := ParseRedirsAt(text, k);
    if !ok {
      return Failed(MissingFile);
    }
    WrapOk(text, cmd, rs);
    return Parse(Wrap(cmd, rs), n);
  }

  /** parsepipe. */
  method ParsePipeAt(text: string, ps: nat) returns (r: Outcome)
    requires ps <= |text|
    ensures (r.Parse? ==> ps <= r.next) && Matches(text, r, ParsePipe(text[ps..]))
    decreases |text| - ps, 2
  {
    r := ParseExecAt(text, ps);
    if r.Failed? {
      return;
    }
    var left := r.cmd;
    var more, i := PeekAt(text, r.next, "|");
    if !more {
      return Parse(left, i);
    }
    ShellRender.SkipTwice(text[r.next..]);
    var tok, q, eq, j := GettokenAt(text, i);
    r := ParsePipeAt(text, j);
    if r.Parse? {
      r := Parse(Pipe(left, r.cmd), r.next);
    }
  }

  /** parseline. */
  method ParseLineAt(text: string, ps: nat) returns (r: Outcome)
    requires ps <= |text|
    ensures (r.Parse? ==> ps <= r.next) && Matches(text, r, ParseLine(text[ps..]))
    decreases |text| - ps, 3
  {
    r := ParsePipeAt(text, ps);
    if r.Failed? {
      return;
    }
    r := ParseBacksAt(text, r.cmd, r.next);
    var cmd := r.cmd;
    var more, i := PeekAt(text, r.next, ";");
    if !more {
      return Parse(cmd, i);
    }
    ShellRender.SkipTwice(text[r.next..]);
    var tok, q, eq, j := GettokenAt(text, i);
    r := ParseLineAt(text, j);
    if r.Parse? {
      r := Parse(List(cmd, r.cmd), r.next);
    }
  }

  /** parseline's loop. */
  method ParseBacksAt(text: string, cmd: Cmd, ps: nat) returns (r: Outcome)
    requires ps <= |text| && CmdOk(text, cmd)
    ensures r.Parse? && ps <= r.next && Matches(text, r, ParseBacks(cmd, text[ps..]))
  {
    var c := cmd;
    var more, i := PeekAt(text, ps, "&");
    ShellRender.BacksSkip(c, text[ps..]);
    while more
      invariant ps <= i <= |text| && more == Peek(text[i..], "&") && SkipSpace(text[i..]) == text[i..] && CmdOk(text, c)
      invariant ParseBacks(cmd, text[ps..]) == ParseBacks(c, text[i..])
      decreases |text| - i
    {
      var tok, q, eq, j := GettokenAt(text, i);
      c := Back(c);
      more, i := PeekAt(text, j, "&");
      ShellRender.BacksSkip(c, text[j..]);
    }
    return Parse(c, i);
  }

  /** parsecmd up to nulterminate: the whole text is one command, whose words are where the tree says. */
  method ParseText(text: string) returns (r: Outcome)
    ensures r.Failed? ==> ParseCmd(text) == Fail(r.why)
    ensures r.Parse? ==> ParseCmd(text).Ok? && ParseCmd(text).cmd == r.cmd && CmdOk(text, r.cmd)
  {
    assert text[0..] == text;
    r := ParseLineAt(text, 0);
    if r.Parse? {
      var _, i := PeekAt(text, r.next, "");
      if i != |text| {
        return Failed(Syntax);
      }
    }
  }

  // ---- nulterminate -------------------------------------------------------------------------

  /** `t` is `s` with a NUL wherever it is one of `ends` before position `n`. */
  ghost predicate Nulled(s: seq<char>, t: seq<char>, n: nat, ends: set<nat>) {
    |t| == |s| && forall i | 0 <= i < |s| :: t[i] == if i <= n && n - i in ends then '\0' else s[i]
  }

  /** nulterminate. */
  method Nulterminate(text: string, cmd: Cmd, buf: array<char>)
    requires CmdOk(text, cmd) && buf.Length == |text| + 1
    modifies buf
    ensures Nulled(old(buf[..]), buf[..], |text|, Ends(cmd))
    decreases cmd
  {
    match cmd
    case Exec(args) =>
      for i := 0 to |args|
        invariant Nulled(old(buf[..]), buf[..], |text|, set k | 0 <= k < i :: args[k].to)
      {
        buf[|text| - args[i].to] := '\0';
      }
    case Redir(c, file, mode, fd) =>
      Nulterminate(text, c, buf);
      buf[|text| - file.to] := '\0';
    case Pipe(l, r) =>
      Nulterminate(text, l, buf);
      Nulterminate(text, r, buf);
    case List(l, r) =>
      Nulterminate(text, l, buf);
      Nulterminate(text, r, buf);
    case Back(c) =>
      Nulterminate(text, c, buf);
  }

  /** parsecmd on a C string: the tree of the grammar, and each of its words a C string of its own in the buffer. */
  method Parsecmd(text: string, buf: array<char>) returns (r: Outcome)
    requires buf[..] == text + ['\0'] && forall i | 0 <= i < |text| :: text[i] != '\0'
    modifies buf
    ensures r.Failed? ==> ParseCmd(text) == Fail(r.why)
    ensures r.Parse? ==> ParseCmd(text).Ok? && ParseCmd(text).cmd == r.cmd && buf.Length == |text| + 1
    ensures r.Parse? ==> forall a | a in Words(r.cmd) :: a.from <= |text| && CString(buf[..], |text| - a.from) == a.word
  {
    assert buf.Length == |text| + 1;
    r := ParseText(text);
    if r.Parse? {
      Nulterminate(text, r.cmd, buf);
      assert Terminated(text, r.cmd, buf[..]);
      forall a | a in Words(r.cmd) ensures a.from <= |text| && CString(buf[..], |text| - a.from) == a.word {
        WordIntact(text, r.cmd, buf[..], a);
      }
    }
  }
}
