/**
 * The editor's "Format Code" rewrite, `code.replace(/\n\s*\n\s*\n/g, '\n\n')`:
 * every run of whitespace that holds three or more line feeds, from its
 * first line feed to its last, becomes two line feeds.
 *
 * The global replace scans left to right; at each position it takes the
 * match the backtracking matcher finds, or copies one character. Both `\s*`
 * are greedy and the pattern ends in a fixed `\n`, so the match found is the
 * longest one, which ends at the last line feed of the whitespace run
 * (`MatchLen`; `MatchLenSound` and `MatchLenLongest` tie it to the
 * language of the pattern, `IsMatch`).
 */
module CodeFormat {
  import opened Wrappers
  import opened Text

  /**
   * `\s` of JavaScript regular expressions: the WhiteSpace and
   * LineTerminator code points of ECMAScript.
   */
  predicate IsSpace(c: char)
  {
    var n := c as int;
    n == 0x09 || n == 0x0A || n == 0x0B || n == 0x0C || n == 0x0D || n == 0x20 || n == 0xA0 || n == 0x1680
    || (0x2000 <= n <= 0x200A) || n == 0x2028 || n == 0x2029 || n == 0x202F || n == 0x205F || n == 0x3000
    || n == 0xFEFF
  }

  /** The number of line feeds in the whitespace run at the start of `u`. */
  function LeadNL(u: string): nat
  {
    if u != [] && IsSpace(u[0]) then (if u[0] == '\n' then 1 else 0) + LeadNL(u[1..]) else 0
  }

  /**
   * The length of the shortest prefix of the whitespace run at the start of
   * `u` that holds all of the run's line feeds (0 when it has none).
   */
  function NLEnd(u: string): (n: nat)
    ensures LeadNL(u) <= n <= |u|
    ensures forall x :: 0 <= x < n ==> IsSpace(u[x])
    ensures n > 0 ==> u[n - 1] == '\n'
  {
    if u != [] && IsSpace(u[0]) then
      var k := NLEnd(u[1..]);
      if k > 0 then k + 1 else if u[0] == '\n' then 1 else 0
    else 0
  }

  /** `u[..n]` is a word of the language of `\n\s*\n\s*\n`. */
  predicate IsMatch(u: string, n: nat)
  {
    && 3 <= n <= |u|
    && u[0] == '\n' && u[n - 1] == '\n'
    && (exists j :: 1 <= j < n - 1 && u[j] == '\n')
    && forall x :: 1 <= x < n - 1 ==> IsSpace(u[x])
  }

  /** The length of the match the replace takes at the start of `u`, if any. */
  function MatchLen(u: string): (r: Option<nat>)
    ensures r.Some? ==> 3 <= r.value <= |u|
  {
    if u != [] && u[0] == '\n' && LeadNL(u[1..]) >= 2 then Some(1 + NLEnd(u[1..])) else None
  }

  /** The whole rewrite. */
  function Format(s: string): string
    decreases |s|
  {
    if s == [] then []
    else
      match MatchLen(s)
      case Some(n) => "\n\n" + Format(s[n..])
      case None => [s[0]] + Format(s[1..])
  }

  /** No position of `r` starts a match. */
  predicate NoMatch(r: string)
  {
    forall i :: 0 <= i < |r| ==> MatchLen(r[i..]).None?
  }

  /** Two line feeds in the whitespace run put a line feed before its end. */
  lemma {:induction false} TwoNewlines(v: string)
    requires LeadNL(v) >= 2
    ensures exists j :: 0 <= j < NLEnd(v) - 1 && v[j] == '\n'
  {
    if v[0] == '\n' {
      assert NLEnd(v[1..]) >= LeadNL(v[1..]) >= 1;
      assert NLEnd(v) == NLEnd(v[1..]) + 1;
    } else {
      TwoNewlines(v[1..]);
      var j :| 0 <= j < NLEnd(v[1..]) - 1 && v[1..][j] == '\n';
      assert v[j + 1] == '\n';
    }
  }

  /** A line feed inside the whitespace run lies before `NLEnd`. */
  lemma {:induction false} NewlineBeforeEnd(v: string, k: nat)
    requires k < |v| && v[k] == '\n'
    requires forall y :: 0 <= y <= k ==> IsSpace(v[y])
    ensures k < NLEnd(v)
  {
    if k > 0 {
      assert forall y :: 0 <= y <= k - 1 ==> IsSpace(v[1..][y]) by {
        forall y | 0 <= y <= k - 1 ensures IsSpace(v[1..][y]) { assert v[1..][y] == v[y + 1]; }
      }
      NewlineBeforeEnd(v[1..], k - 1);
    }
  }

  /** A line feed in the whitespace run counts. */
  lemma {:induction false} OneNewline(v: string, k: nat)
    requires k < |v| && v[k] == '\n'
    requires forall y :: 0 <= y <= k ==> IsSpace(v[y])
    ensures LeadNL(v) >= 1
  {
    if k > 0 {
      assert forall y :: 0 <= y <= k - 1 ==> IsSpace(v[1..][y]) by {
        forall y | 0 <= y <= k - 1 ensures IsSpace(v[1..][y]) { assert v[1..][y] == v[y + 1]; }
      }
      OneNewline(v[1..], k - 1);
    }
  }

  /** Two line feeds in the whitespace run count. */
  lemma {:induction false} TwoNewlinesCount(v: string, j: nat, k: nat)
    requires j < k < |v| && v[j] == '\n' && v[k] == '\n'
    requires forall y :: 0 <= y <= k ==> IsSpace(v[y])
    ensures LeadNL(v) >= 2
  {
    assert forall y :: 0 <= y <= k - 1 ==> IsSpace(v[1..][y]) by {
      forall y | 0 <= y <= k - 1 ensures IsSpace(v[1..][y]) { assert v[1..][y] == v[y + 1]; }
    }
    if j == 0 {
      OneNewline(v[1..], k - 1);
    } else {
      TwoNewlinesCount(v[1..], j - 1, k - 1);
    }
  }

  /** The match the replace takes is a word of the pattern's language. */
  lemma MatchLenSound(u: string)
    requires MatchLen(u).Some?
    ensures IsMatch(u, MatchLen(u).value)
  {
    var v := u[1..];
    var n := MatchLen(u).value;
    TwoNewlines(v);
    var j :| 0 <= j < NLEnd(v) - 1 && v[j] == '\n';
    assert u[j + 1] == '\n';
    assert u[n - 1] == v[NLEnd(v) - 1];
    forall x | 1 <= x < n - 1
      ensures IsSpace(u[x])
    {
      assert u[x] == v[x - 1];
    }
  }

  /**
   * Whenever some prefix of `u` is a word of the pattern's language, the
   * replace finds a match, and no match is longer than the one it takes.
   */
  lemma MatchLenLongest(u: string, m: nat)
    requires IsMatch(u, m)
    ensures MatchLen(u).Some? && m <= MatchLen(u).value
  {
    var v := u[1..];
    var j :| 1 <= j < m - 1 && u[j] == '\n';
    forall y | 0 <= y <= m - 2
      ensures IsSpace(v[y])
    {
      assert v[y] == u[y + 1];
      if y + 1 < m - 1 {
      } else {
        assert u[y + 1] == '\n';
      }
    }
    assert v[j - 1] == '\n' && v[m - 2] == '\n';
    TwoNewlinesCount(v, j - 1, m - 2);
    NewlineBeforeEnd(v, m - 2);
  }

  /** After the last line feed of the run, no line feed is left in the run. */
  lemma {:induction false} AfterLastNewline(v: string)
    ensures LeadNL(v[NLEnd(v)..]) == 0
  {
    if v != [] && IsSpace(v[0]) {
      AfterLastNewline(v[1..]);
      if NLEnd(v[1..]) > 0 {
        assert v[NLEnd(v)..] == v[1..][NLEnd(v[1..])..];
      } else {
        assert v[1..][0..] == v[1..];
      }
    }
  }

  lemma LeadNLCons(c: char, w: string)
    ensures LeadNL([c] + w) == if IsSpace(c) then (if c == '\n' then 1 else 0) + LeadNL(w) else 0
  {
    assert ([c] + w)[1..] == w;
  }

  /** Formatting never adds line feeds to the leading whitespace run. */
  lemma {:induction false} LeadNLFormat(u: string)
    ensures LeadNL(Format(u)) <= LeadNL(u)
    decreases |u|
  {
    if u != [] {
      match MatchLen(u)
      case Some(n) =>
        AfterLastNewline(u[1..]);
        assert u[n..] == u[1..][NLEnd(u[1..])..];
        LeadNLFormat(u[n..]);
        LeadNLCons('\n', Format(u[n..]));
        LeadNLCons('\n', "\n" + Format(u[n..]));
        assert "\n\n" + Format(u[n..]) == ['\n'] + (['\n'] + Format(u[n..]));
      case None =>
        LeadNLFormat(u[1..]);
        LeadNLCons(u[0], Format(u[1..]));
    }
  }

  /** The result of formatting holds no match anywhere. */
  lemma {:induction false} FormatNoMatch(s: string)
    ensures NoMatch(Format(s))
    decreases |s|
  {
    if s != [] {
      match MatchLen(s)
      case Some(n) =>
        FormatNoMatch(s[n..]);
        AfterLastNewline(s[1..]);
        assert s[n..] == s[1..][NLEnd(s[1..])..];
        LeadNLFormat(s[n..]);
        NoMatchAfterBreak(Format(s[n..]));
      case None =>
        var w := Format(s[1..]);
        FormatNoMatch(s[1..]);
        LeadNLFormat(s[1..]);
        assert ([s[0]] + w)[1..] == w;
        NoMatchCons(s[0], w);
    }
  }

  /** Two line feeds before a text without a match or a leading line feed form no match. */
  lemma NoMatchAfterBreak(w: string)
    requires NoMatch(w) && LeadNL(w) == 0
    ensures NoMatch("\n\n" + w)
  {
    var r := "\n\n" + w;
    assert r[1..] == ['\n'] + w;
    LeadNLCons('\n', w);
    assert r[1..][1..] == w;
    forall i | 0 <= i < |r|
      ensures MatchLen(r[i..]).None?
    {
      if i >= 2 {
        assert r[i..] == w[i - 2..];
      }
    }
  }

  /** A character that starts no match, before a text without a match, forms none. */
  lemma NoMatchCons(c: char, w: string)
    requires NoMatch(w) && MatchLen([c] + w).None?
    ensures NoMatch([c] + w)
  {
    var r := [c] + w;
    forall i | 0 <= i < |r|
      ensures MatchLen(r[i..]).None?
    {
      if i >= 1 {
        assert r[i..] == w[i - 1..];
      }
    }
  }

  /** A string without a match is left as it is. */
  lemma {:induction false} FormatFixed(t: string)
    requires NoMatch(t)
    ensures Format(t) == t
    decreases |t|
  {
    if t != [] {
      assert MatchLen(t[0..]).None?;
      assert t[0..] == t;
      forall i | 0 <= i < |t[1..]|
        ensures MatchLen(t[1..][i..]).None?
      {
        assert t[1..][i..] == t[i + 1..];
      }
      FormatFixed(t[1..]);
      assert [t[0]] + t[1..] == t;
    }
  }

  /** Formatting twice is formatting once. */
  lemma FormatIdempotent(s: string)
    ensures Format(Format(s)) == Format(s)
  {
    FormatNoMatch(s);
    FormatFixed(Format(s));
  }

  /** In a formatted string no line feed starts a whitespace run with three line feeds. */
  lemma FormatNoTripleBreak(s: string, i: nat)
    requires i < |Format(s)| && Format(s)[i] == '\n'
    ensures LeadNL(Format(s)[i..]) <= 2
  {
    var r := Format(s);
    FormatNoMatch(s);
    assert MatchLen(r[i..]).None?;
    assert r[i..][0] == '\n';
    assert r[i..][1..] == r[i + 1..];
  }

  /** `t` holds no whitespace character. */
  predicate NoSpace(t: string)
  {
    forall k :: 0 <= k < |t| ==> !IsSpace(t[k])
  }

  /** Formatting keeps a leading piece that holds no whitespace. */
  lemma {:induction false} FormatKeepsPrefix(s: string, t: string)
    requires NoSpace(t) && t <= s
    ensures t <= Format(s)
    decreases |s|
  {
    if t != [] {
      assert s[0] == t[0];
      assert t[1..] <= s[1..];
      FormatKeepsPrefix(s[1..], t[1..]);
    }
  }

  /** A piece without whitespace found in `u` lies past a whitespace prefix of `u`. */
  lemma {:induction false} SkipSpaces(u: string, t: string, m: nat)
    requires t != [] && NoSpace(t) && m <= |u|
    requires forall x :: 0 <= x < m ==> IsSpace(u[x])
    requires Contains(u, t)
    ensures Contains(u[m..], t)
    decreases m
  {
    if m > 0 {
      assert u[0] != t[0];
      assert Contains(u[1..], t);
      forall x | 0 <= x < m - 1
        ensures IsSpace(u[1..][x])
      {
        assert u[1..][x] == u[x + 1];
      }
      SkipSpaces(u[1..], t, m - 1);
      assert u[1..][m - 1..] == u[m..];
    }
  }

  /** Formatting keeps every piece of the code that holds no whitespace. */
  lemma {:induction false} FormatKeeps(s: string, t: string)
    requires t != [] && NoSpace(t) && Contains(s, t)
    ensures Contains(Format(s), t)
    decreases |s|
  {
    if t <= s {
      FormatKeepsPrefix(s, t);
    } else {
      match MatchLen(s)
      case Some(n) =>
        SkipSpaces(s[1..], t, n - 1);
        assert s[1..][n - 1..] == s[n..];
        FormatKeeps(s[n..], t);
        ContainsExtend("\n\n", Format(s[n..]), [], t);
        assert "\n\n" + Format(s[n..]) + [] == Format(s);
      case None =>
        FormatKeeps(s[1..], t);
        ContainsExtend([s[0]], Format(s[1..]), [], t);
        assert [s[0]] + Format(s[1..]) + [] == Format(s);
    }
  }
}
