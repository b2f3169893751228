/** grep.c's matcher and the language of its patterns. */
module Grep {
  /** A pattern is a sequence of single characters and starred ones; `.` stands for any character. */
  datatype Item = One(c: char) | Star(c: char)

  predicate Fits(c: char, x: char) {
    c == '.' || c == x
  }

  predicate AllFit(c: char, s: string) {
    forall i | 0 <= i < |s| :: Fits(c, s[i])
  }

  function Items(re: string): seq<Item> {
    if re == [] || re == "$" then []
    else if |re| >= 2 && re[1] == '*' then [Star(re[0])] + Items(re[2..])
    else [One(re[0])] + Items(re[1..])
  }

  /** The pattern ends with `$`, which is neither starred nor a star. */
  predicate Anchored(re: string) {
    if re == [] then false
    else if re == "$" then true
    else if |re| >= 2 && re[1] == '*' then Anchored(re[2..])
    else Anchored(re[1..])
  }

  /** The strings a sequence of items stands for. */
  ghost predicate Denotes(items: seq<Item>, s: string)
    decreases |items|
  {
    if items == [] then s == []
    else if items[0].One? then s != [] && Fits(items[0].c, s[0]) && Denotes(items[1..], s[1..])
    else exists k | 0 <= k <= |s| :: AllFit(items[0].c, s[..k]) && Denotes(items[1..], s[k..])
  }

  ghost predicate AcceptsTo(re: string, text: string, k: nat)
    requires k <= |text|
  {
    Denotes(Items(re), text[..k]) && (Anchored(re) ==> k == |text|)
  }

  /** The pattern matches at the beginning of the text; with `$`, all of it. */
  ghost predicate Accepts(re: string, text: string) {
    exists k | 0 <= k <= |text| :: AcceptsTo(re, text, k)
  }

  lemma {:induction false} AcceptsEmpty(re: string, text: string)
    requires re == []
    ensures Accepts(re, text)
  {
    assert AcceptsTo(re, text, 0);
  }

  lemma {:induction false} AcceptsEnd(re: string, text: string)
    requires re == "$"
    ensures Accepts(re, text) <==> text == []
  {
    if text == [] {
      assert AcceptsTo(re, text, 0);
    }
  }

  lemma {:induction false} AcceptsOne(re: string, text: string)
    requires re != [] && re != "$" && !(|re| >= 2 && re[1] == '*')
    ensures Accepts(re, text) <==> text != [] && Fits(re[0], text[0]) && Accepts(re[1..], text[1..])
  {
    assert Items(re)[1..] == Items(re[1..]);
    if Accepts(re, text) {
      var k :| 0 <= k <= |text| && AcceptsTo(re, text, k);
      assert text[..k][1..] == text[1..][..k - 1];
      assert AcceptsTo(re[1..], text[1..], k - 1);
    }
    if text != [] && Fits(re[0], text[0]) && Accepts(re[1..], text[1..]) {
      var k :| 0 <= k <= |text[1..]| && AcceptsTo(re[1..], text[1..], k);
      assert text[..k + 1][1..] == text[1..][..k];
      assert AcceptsTo(re, text, k + 1);
    }
  }

  /** `n` characters for the star, and the rest of the pattern behind them. */
  ghost predicate StarTo(c: char, rest: string, text: string, n: nat) {
    n <= |text| && AllFit(c, text[..n]) && Accepts(rest, text[n..])
  }

  lemma Parts(text: string, n: nat, k: nat, m: nat)
    requires n <= k <= |text| && m == k - n
    ensures text[..k][..n] == text[..n] && text[..k][n..] == text[n..][..m]
  {
  }

  lemma {:induction false} StarSplits(re: string, text: string, k: nat) returns (n: nat)
    requires |re| >= 2 && re[1] == '*' && k <= |text| && AcceptsTo(re, text, k)
    ensures StarTo(re[0], re[2..], text, n)
  {
    var s := text[..k];
    assert Items(re)[0] == Star(re[0]) && Items(re)[1..] == Items(re[2..]);
    n :| 0 <= n <= |s| && AllFit(re[0], s[..n]) && Denotes(Items(re[2..]), s[n..]);
    Parts(text, n, k, k - n);
    assert AcceptsTo(re[2..], text[n..], k - n);
  }

  lemma {:induction false} StarJoins(re: string, text: string, n: nat)
    requires |re| >= 2 && re[1] == '*' && StarTo(re[0], re[2..], text, n)
    ensures Accepts(re, text)
  {
    var m :| 0 <= m <= |text[n..]| && AcceptsTo(re[2..], text[n..], m);
    var k := n + m;
    Parts(text, n, k, m);
    assert Items(re)[0] == Star(re[0]) && Items(re)[1..] == Items(re[2..]);
    var s := text[..k];
    assert AllFit(re[0], s[..n]) && Denotes(Items(re[2..]), s[n..]);
    assert AcceptsTo(re, text, k);
  }

  lemma {:induction false} AcceptsStar(re: string, text: string)
    requires |re| >= 2 && re[1] == '*'
    ensures Accepts(re, text) <==> exists n: nat :: StarTo(re[0], re[2..], text, n)
  {
    if Accepts(re, text) {
      var k: nat :| k <= |text| && AcceptsTo(re, text, k);
      var n := StarSplits(re, text, k);
    }
    if n: nat :| StarTo(re[0], re[2..], text, n) {
      StarJoins(re, text, n);
    }
  }

  /** matchhere, for the pattern from `i` and the text from `j` on. */
  method Matchhere(re: string, i: nat, text: string, j: nat) returns (r: bool)
    requires i <= |re| && j <= |text|
    ensures r <==> Accepts(re[i..], text[j..])
    decreases |re| - i, 0
  {
    var p := re[i..];
    if i == |re| {
      AcceptsEmpty(p, text[j..]);
      return true;
    }
    if i + 1 < |re| && re[i + 1] == '*' {
      AcceptsStar(p, text[j..]);
      assert p[2..] == re[i + 2..];
      r := Matchstar(re[i], re, i + 2, text, j);
      return;
    }
    if re[i] == '$' && i + 1 == |re| {
      assert p == "$";
      AcceptsEnd(p, text[j..]);
      return j == |text|;
    }
    AcceptsOne(p, text[j..]);
    if j < |text| && (re[i] == '.' || re[i] == text[j]) {
      assert p[1..] == re[i + 1..] && text[j..][1..] == text[j + 1..];
      r := Matchhere(re, i + 1, text, j + 1);
      return;
    }
    return false;
  }

  /** matchstar: some number of `c`, then the pattern. */
  method Matchstar(c: char, re: string, i: nat, text: string, j: nat) returns (r: bool)
    requires i <= |re| && j <= |text|
    ensures r <==> exists n: nat :: StarTo(c, re[i..], text[j..], n)
    decreases |re| - i, 1
  {
    var k := j;
    while true
      invariant j <= k <= |text| && AllFit(c, text[j..k])
      invariant forall n: nat | n < k - j :: !StarTo(c, re[i..], text[j..], n)
      decreases |text| - k
    {
      var here := Matchhere(re, i, text, k);
      assert text[j..][..k - j] == text[j..k] && text[j..][k - j..] == text[k..];
      if here {
        assert StarTo(c, re[i..], text[j..], k - j);
        return true;
      }
      if k == |text| || !(text[k] == c || c == '.') {
        forall n: nat | n > k - j ensures !StarTo(c, re[i..], text[j..], n) {
          NoLonger(c, re[i..], text[j..], k - j, n);
        }
        return false;
      }
      assert text[j..k + 1] == text[j..k] + [text[k]];
      k := k + 1;
    }
  }

  /** A star cannot go past the end, or past a character that does not fit. */
  lemma NoLonger(c: char, rest: string, text: string, m: nat, n: nat)
    requires m < n && m <= |text| && (m == |text| || !Fits(c, text[m]))
    ensures !StarTo(c, rest, text, n)
  {
    if n <= |text| {
      assert text[..n][m] == text[m];
    }
  }

  /** match: with `^` at the beginning of the text, otherwise anywhere in it. */
  method Match(re: string, text: string) returns (r: bool)
    ensures r <==> if re != [] && re[0] == '^' then Accepts(re[1..], text) else exists j ::
                   0 <= j <= |text| && Accepts(re, text[j..])
  {
    assert text[0..] == text && re[0..] == re;
    if re != [] && re[0] == '^' {
      r := Matchhere(re, 1, text, 0);
      return;
    }
    var j := 0;
    while true
      invariant 0 <= j <= |text| && forall k | 0 <= k < j :: !Accepts(re, text[k..])
      decreases |text| - j
    {
      r := Matchhere(re, 0, text, j);
      if r || j == |text| {
        return;
      }
      j := j + 1;
    }
  }
}
