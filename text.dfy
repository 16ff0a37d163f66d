/**
 * The JavaScript string operations the application relies on:
 * `includes`, `startsWith`, `replace` with a string pattern, and `split`
 * with a one-character separator.
 */
module Text {
  import opened Wrappers

  /** `t` occurs in `s` starting at index `i`. */
  predicate OccursAt(s: string, t: string, i: nat)
  {
    i + |t| <= |s| && s[i..i + |t|] == t
  }

  /** `s.includes(t)`. */
  predicate Contains(s: string, t: string)
    decreases |s|
  {
    t <= s || (s != [] && Contains(s[1..], t))
  }

  /** JavaScript truthiness of a string: only the empty string is falsy. */
  predicate Truthy(s: Option<string>)
  {
    s.Some? && s.value != []
  }

  /** `s.indexOf(t)`: the first index at which `t` occurs, if any. */
  function IndexOf(s: string, t: string): (r: Option<nat>)
    ensures r.Some? ==> OccursAt(s, t, r.value)
    ensures r.Some? ==> forall j :: 0 <= j < r.value ==> !OccursAt(s, t, j)
    ensures r.None? ==> forall j :: 0 <= j ==> !OccursAt(s, t, j)
    decreases |s|
  {
    if t <= s then Some(0)
    else if s == [] then None
    else
      match IndexOf(s[1..], t)
      case Some(k) =>
        assert forall j :: 1 <= j <= k ==> OccursAt(s, t, j) == OccursAt(s[1..], t, j - 1);
        Some(k + 1)
      case None =>
        assert forall j :: 1 <= j ==> OccursAt(s, t, j) == OccursAt(s[1..], t, j - 1);
        None
  }

  /** `includes` holds exactly when `indexOf` finds an occurrence. */
  lemma {:induction false} ContainsIffIndexOf(s: string, t: string)
    ensures Contains(s, t) <==> IndexOf(s, t).Some?
    decreases |s|
  {
    if !(t <= s) && s != [] {
      ContainsIffIndexOf(s[1..], t);
    }
  }

  /** An occurrence at any index makes `includes` true. */
  lemma {:induction false} ContainsAt(s: string, t: string, i: nat)
    requires OccursAt(s, t, i)
    ensures Contains(s, t)
  {
    ContainsIffIndexOf(s, t);
  }

  /** A string contains every piece it is assembled around. */
  lemma {:induction false} ContainsMiddle(a: string, t: string, b: string)
    ensures Contains(a + t + b, t)
  {
    assert (a + t + b)[|a|..|a| + |t|] == t;
    ContainsAt(a + t + b, t, |a|);
  }

  /** Text added around a string keeps what it contains. */
  lemma ContainsExtend(a: string, s: string, b: string, t: string)
    requires Contains(s, t)
    ensures Contains(a + s + b, t)
  {
    ContainsIffIndexOf(s, t);
    var i := IndexOf(s, t).value;
    assert (a + s + b)[|a| + i..|a| + i + |t|] == s[i..i + |t|];
    ContainsAt(a + s + b, t, |a| + i);
  }

  /**
   * The replacement text `replace` inserts for a match `matched` that has
   * `before` in front of it and `after` behind it: `$$` becomes `$`, `$&`
   * the match, `` $` `` the text before it and `$'` the text after it. With
   * a string pattern there are no captures, so every other `$` is literal.
   */
  function Expand(rep: string, matched: string, before: string, after: string): string
  {
    ExpandFrom(rep, 0, matched, before, after)
  }

  /** `Expand` of the replacement from index `k` on. */
  function ExpandFrom(rep: string, k: nat, matched: string, before: string, after: string): string
    decreases |rep| - k
  {
    if k >= |rep| then []
    else if rep[k] == '$' && k + 1 < |rep| && IsPattern(rep[k + 1]) then
      Pattern(rep[k + 1], matched, before, after) + ExpandFrom(rep, k + 2, matched, before, after)
    else [rep[k]] + ExpandFrom(rep, k + 1, matched, before, after)
  }

  /** The characters that make a `$` a pattern. */
  predicate IsPattern(c: char)
  {
    c == '$' || c == '&' || c == '`' || c == '\''
  }

  /** The text one `$` pattern stands for, by the character after the `$`. */
  function Pattern(c: char, matched: string, before: string, after: string): string
  {
    match c
    case '&' => matched
    case '`' => before
    case '\'' => after
    case _ => "$"
  }

  /** A replacement without `$` is inserted as it is. */
  lemma ExpandLiteral(rep: string, matched: string, before: string, after: string)
    requires '$' !in rep
    ensures Expand(rep, matched, before, after) == rep
  {
    ExpandFromLiteral(rep, 0, matched, before, after);
  }

  lemma {:induction false} ExpandFromLiteral(rep: string, k: nat, matched: string, before: string, after: string)
    requires '$' !in rep && k <= |rep|
    ensures ExpandFrom(rep, k, matched, before, after) == rep[k..]
    decreases |rep| - k
  {
    if k < |rep| {
      ExpandFromLiteral(rep, k + 1, matched, before, after);
      assert [rep[k]] + rep[k + 1..] == rep[k..];
    }
  }

  /** `$&` inserts the match itself. */
  lemma ExpandMatch(matched: string, before: string, after: string)
    ensures Expand("$&", matched, before, after) == matched
  {
    assert ExpandFrom("$&", 2, matched, before, after) == [];
  }

  /**
   * `s.replace(t, rep)` with a string pattern: only the first occurrence is
   * replaced, by `rep` with its `$` patterns expanded; without one the
   * string is returned unchanged.
   */
  function ReplaceFirst(s: string, t: string, rep: string): (r: string)
  {
    match IndexOf(s, t)
    case None => s
    case Some(i) => s[..i] + Expand(rep, t, s[..i], s[i + |t|..]) + s[i + |t|..]
  }

  /**
   * When `s` is `a + t + b` and `t` does not occur at any index inside `a`,
   * the first occurrence is the one between `a` and `b`: it gives way to the
   * expanded replacement, which is `rep` itself when `rep` has no `$`.
   */
  lemma ReplaceFirstSplit(a: string, t: string, b: string, rep: string)
    requires forall j :: 0 <= j < |a| ==> !OccursAt(a + t + b, t, j)
    ensures ReplaceFirst(a + t + b, t, rep) == a + Expand(rep, t, a, b) + b
    ensures '$' !in rep ==> ReplaceFirst(a + t + b, t, rep) == a + rep + b
  {
    var s := a + t + b;
    assert s[|a|..|a| + |t|] == t;
    assert OccursAt(s, t, |a|);
    var i := IndexOf(s, t).value;
    assert i == |a|;
    assert s[..i] == a;
    assert s[i + |t|..] == b;
    if '$' !in rep {
      ExpandLiteral(rep, t, a, b);
    }
  }

  /** Without an occurrence, `replace` returns its input. */
  lemma ReplaceFirstAbsent(s: string, t: string, rep: string)
    requires !Contains(s, t)
    ensures ReplaceFirst(s, t, rep) == s
  {
    ContainsIffIndexOf(s, t);
  }

  /** When `t` occurs, `replace` puts a `$`-free `rep` into the result. */
  lemma ReplaceInserts(s: string, t: string, rep: string)
    requires Contains(s, t) && '$' !in rep
    ensures Contains(ReplaceFirst(s, t, rep), rep)
  {
    ContainsIffIndexOf(s, t);
    var i := IndexOf(s, t).value;
    var a, b := s[..i], s[i + |t|..];
    ExpandLiteral(rep, t, a, b);
    assert ReplaceFirst(s, t, rep) == a + rep + b;
    ContainsMiddle(a, rep, b);
  }

  /** The replacement `$&` puts the match back: the string is left as it was. */
  lemma ReplaceMatchKeeps(s: string, t: string, rep: string)
    requires Contains(s, t) && rep == "$&"
    ensures ReplaceFirst(s, t, rep) == s
  {
    ContainsIffIndexOf(s, t);
    var i := IndexOf(s, t).value;
    var e := ReplaceFirstFound(s, t, rep, i);
    ExpandMatch(t, s[..i], s[i + |t|..]);
    Reassemble(s, t, i);
  }

  /** Cutting out an occurrence and putting it back gives the string again. */
  lemma Reassemble(s: string, t: string, i: nat)
    requires OccursAt(s, t, i)
    ensures s[..i] + t + s[i + |t|..] == s
  {
    assert s[i..i + |t|] == t;
  }

  /** Two occurrences that overlap share a character. */
  lemma OverlapShares(s: string, t: string, m: string, p: nat, i: nat)
    requires OccursAt(s, m, p) && OccursAt(s, t, i)
    requires m != [] && t != []
    requires p < i + |t|
    requires i < p + |m|
    ensures exists k :: 0 <= k < |m| && m[k] in t
  {
    var x: nat := if p < i then i else p;
    assert p <= x < p + |m|;
    assert i <= x < i + |t|;
    assert m[x - p] == s[x] by { assert m == s[p..p + |m|]; }
    assert t[x - i] == s[x] by { assert t == s[i..i + |t|]; }
    assert m[x - p] in t;
  }

  /**
   * An occurrence of `m` survives `replace` when no character of `m` is a
   * character of the pattern: it cannot overlap the replaced occurrence, so
   * it lies wholly before or wholly after it, whatever the replacement
   * expands to.
   */
  lemma ReplaceKeeps(s: string, t: string, rep: string, m: string, p: nat)
    requires m != [] && OccursAt(s, m, p)
    requires forall k :: 0 <= k < |m| ==> m[k] !in t
    ensures Contains(ReplaceFirst(s, t, rep), m)
  {
    var found := IndexOf(s, t);
    if found.None? {
      assert ReplaceFirst(s, t, rep) == s;
      ContainsAt(s, m, p);
    } else {
      var i := found.value;
      var e := ReplaceFirstFound(s, t, rep, i);
      assert t == [] ==> t <= s;
      KeepAround(s, t, e, m, p, i);
    }
  }

  /** Where `indexOf` finds the pattern, `replace` puts the expanded replacement in its place. */
  lemma ReplaceFirstFound(s: string, t: string, rep: string, i: nat) returns (e: string)
    requires IndexOf(s, t) == Some(i)
    ensures e == Expand(rep, t, s[..i], s[i + |t|..])
    ensures ReplaceFirst(s, t, rep) == s[..i] + e + s[i + |t|..]
  {
    match IndexOf(s, t) {
      case Some(j) =>
        assert j == i;
        e := Expand(rep, t, s[..i], s[i + |t|..]);
    }
  }


  /**
   * The occurrence of `m` lies before or after the replaced one (an empty
   * pattern is found at index 0).
   */
  lemma KeepAround(s: string, t: string, rep: string, m: string, p: nat, i: nat)
    requires m != [] && OccursAt(s, m, p) && OccursAt(s, t, i)
    requires t == [] ==> i == 0
    requires forall k :: 0 <= k < |m| ==> m[k] !in t
    ensures Contains(s[..i] + rep + s[i + |t|..], m)
  {
    if i + |t| <= p {
      KeepAfter(s, t, rep, m, p, i);
    } else if p + |m| <= i {
      KeepBefore(s, t, rep, m, p, i);
    } else {
      OverlapShares(s, t, m, p, i);
      assert false;
    }
  }

  lemma KeepBefore(s: string, t: string, rep: string, m: string, p: nat, i: nat)
    requires OccursAt(s, m, p) && OccursAt(s, t, i) && p + |m| <= i
    ensures Contains(s[..i] + rep + s[i + |t|..], m)
  {
    var r := s[..i] + rep + s[i + |t|..];
    assert r[p..p + |m|] == s[p..p + |m|];
    ContainsAt(r, m, p);
  }

  lemma KeepAfter(s: string, t: string, rep: string, m: string, p: nat, i: nat)
    requires OccursAt(s, m, p) && OccursAt(s, t, i) && i + |t| <= p
    ensures Contains(s[..i] + rep + s[i + |t|..], m)
  {
    var r := s[..i] + rep + s[i + |t|..];
    var q := p - |t| + |rep|;
    assert r[q..q + |m|] == s[p..p + |m|];
    ContainsAt(r, m, q);
  }

  /**
   * `s.split(sep)` for a one-character separator: the pieces between
   * separators, in order; `""` splits into `[""]` and `"a/"` into `["a", ""]`.
   */
  function Split(s: string, sep: char): (parts: seq<string>)
    ensures |parts| >= 1
    decreases |s|
  {
    if s == [] then [[]]
    else if s[0] == sep then [[]] + Split(s[1..], sep)
    else
      var rest := Split(s[1..], sep);
      [[s[0]] + rest[0]] + rest[1..]
  }

  /** `parts.join(sep)`. */
  function Join(parts: seq<string>, sep: char): string
    requires |parts| >= 1
    decreases |parts|
  {
    if |parts| == 1 then parts[0] else parts[0] + [sep] + Join(parts[1..], sep)
  }

  /** No piece of a split contains the separator. */
  lemma {:induction false} SplitPiecesFree(s: string, sep: char)
    ensures forall k :: 0 <= k < |Split(s, sep)| ==> sep !in Split(s, sep)[k]
    decreases |s|
  {
    if s != [] {
      SplitPiecesFree(s[1..], sep);
    }
  }

  /** Joining the pieces of a split gives back the string. */
  lemma {:induction false} JoinSplit(s: string, sep: char)
    ensures Join(Split(s, sep), sep) == s
    decreases |s|
  {
    if s != [] {
      JoinSplit(s[1..], sep);
      var rest := Split(s[1..], sep);
      if s[0] == sep {
        assert ([[]] + rest)[1..] == rest;
      } else if |rest| == 1 {
        assert Split(s, sep) == [[s[0]] + rest[0]];
      } else {
        var parts := Split(s, sep);
        assert parts[1..] == rest[1..];
        assert Join(parts, sep) == [s[0]] + rest[0] + [sep] + Join(rest[1..], sep);
        assert Join(rest, sep) == rest[0] + [sep] + Join(rest[1..], sep);
      }
    }
  }

  /** Splitting a join of separator-free pieces gives back the pieces. */
  lemma {:induction false} SplitJoin(parts: seq<string>, sep: char)
    requires |parts| >= 1
    requires forall k :: 0 <= k < |parts| ==> sep !in parts[k]
    ensures Split(Join(parts, sep), sep) == parts
    decreases |parts|, |parts[0]|
  {
    if |parts| == 1 {
      SplitFree(parts[0], sep);
    } else if parts[0] == [] {
      SplitJoin(parts[1..], sep);
      var j := Join(parts, sep);
      assert j == [sep] + Join(parts[1..], sep);
      assert j[1..] == Join(parts[1..], sep);
      assert [parts[0]] + parts[1..] == parts;
    } else {
      var p0 := parts[0];
      var tail := [p0[1..]] + parts[1..];
      SplitJoin(tail, sep);
      var j := Join(parts, sep);
      assert Join(tail, sep) == p0[1..] + [sep] + Join(parts[1..], sep);
      assert j == [p0[0]] + Join(tail, sep);
      assert j[1..] == Join(tail, sep);
      assert p0[0] != sep by { assert p0[0] in parts[0]; }
      assert tail[1..] == parts[1..];
      assert [p0[0]] + p0[1..] == p0;
      assert [p0] + parts[1..] == parts;
    }
  }

  /** A separator-free string splits into itself alone. */
  lemma {:induction false} SplitFree(s: string, sep: char)
    requires sep !in s
    ensures Split(s, sep) == [s]
    decreases |s|
  {
    if s != [] {
      assert sep !in s[1..];
      SplitFree(s[1..], sep);
      assert [s[0]] + s[1..] == s;
    }
  }
}
