/**
 * The JavaScript string operations the client code relies on: `trim()`, the
 * regular-expression class `\s`, `includes()` and the second piece of
 * `split()`. Strings are sequences of Unicode scalar values.
 */
module Text {
  import opened Wrappers

  /** ECMAScript WhiteSpace and LineTerminator code points: what `trim()` strips and `\s` matches. */
  predicate IsSpace(c: char)
  {
    if c <= ' ' then '\t' <= c <= '\r' || c == ' '
    else '\U{A0}' <= c && (c == '\U{A0}' || c == '\U{1680}' || ('\U{2000}' <= c <= '\U{200A}')
                           || c == '\U{2028}' || c == '\U{2029}' || c == '\U{202F}' || c == '\U{205F}'
                           || c == '\U{3000}' || c == '\U{FEFF}')
  }

  /** A string that `trim()` turns into the empty string (the JavaScript `!s.trim()` test). */
  predicate IsBlank(s: string)
  {
    forall i :: 0 <= i < |s| ==> IsSpace(s[i])
  }

  /** A string with no white space anywhere. */
  predicate NoSpace(s: string)
  {
    forall i :: 0 <= i < |s| ==> !IsSpace(s[i])
  }

  /** The index of the first non-white-space character at or after `k`, or `|s|` if there is none. */
  function LeadingEnd(s: string, k: nat): (n: nat)
    requires k <= |s|
    ensures k <= n <= |s|
    ensures forall i :: k <= i < n ==> IsSpace(s[i])
    ensures n == |s| || !IsSpace(s[n])
    decreases |s| - k
  {
    if k < |s| && IsSpace(s[k]) then LeadingEnd(s, k + 1) else k
  }

  /** The index just past the last non-white-space character before `k`, or 0 if there is none. */
  function TrailingStart(s: string, k: nat): (n: nat)
    requires k <= |s|
    ensures n <= k
    ensures forall i :: n <= i < k ==> IsSpace(s[i])
    ensures n == 0 || !IsSpace(s[n - 1])
  {
    if k > 0 && IsSpace(s[k - 1]) then TrailingStart(s, k - 1) else k
  }

  /** `trim()`: white space dropped from both ends. */
  function Trim(s: string): (r: string)
    ensures |r| <= |s|
    ensures r == [] || (!IsSpace(r[0]) && !IsSpace(r[|r| - 1]))
  {
    var a := LeadingEnd(s, 0);
    if a == |s| then []
    else
      var b := TrailingStart(s, |s|);
      assert a < b;
      s[a..b]
  }

  /** What `trim()` keeps is the infix starting at the first non-white-space character, with only white space around it. */
  lemma TrimIsInfix(s: string)
    ensures var r, a := Trim(s), LeadingEnd(s, 0);
      a + |r| <= |s| && r == s[a..a + |r|] && IsBlank(s[..a]) && IsBlank(s[a + |r|..])
  {
    var a := LeadingEnd(s, 0);
    if a < |s| {
      var b := TrailingStart(s, |s|);
      var tail := s[b..];
      forall i | 0 <= i < |tail| ensures IsSpace(tail[i]) {
        assert tail[i] == s[b + i];
      }
    }
  }

  /** `!s.trim()` holds exactly of the blank strings. */
  lemma TrimEmptyIffBlank(s: string)
    ensures Trim(s) == [] <==> IsBlank(s)
  {
    var a := LeadingEnd(s, 0);
    if a < |s| {
      assert !IsSpace(s[a]);
    }
  }

  /** A string free of white space is its own trim. */
  lemma TrimOfNoSpace(s: string)
    requires NoSpace(s)
    ensures Trim(s) == s
  {
    if s != [] {
      assert LeadingEnd(s, 0) == 0;
      assert TrailingStart(s, |s|) == |s|;
    }
  }

  /** Trimming twice is trimming once. */
  lemma TrimIdempotent(s: string)
    ensures Trim(Trim(s)) == Trim(s)
  {
    var r := Trim(s);
    if r != [] {
      assert LeadingEnd(r, 0) == 0;
      assert TrailingStart(r, |r|) == |r|;
    }
  }

  /** `p` occurs in `s` starting at index `i`. */
  predicate OccursAt(s: string, p: string, i: int)
  {
    0 <= i && i + |p| <= |s| && s[i..i + |p|] == p
  }

  /** The first occurrence of `p` in `s` at or after index `k`. */
  function IndexOfFrom(s: string, p: string, k: nat): (r: Option<nat>)
    requires k <= |s|
    ensures r.Some? ==> k <= r.value && OccursAt(s, p, r.value)
    ensures r.Some? ==> forall j :: k <= j < r.value ==> !OccursAt(s, p, j)
    ensures r.None? ==> forall j :: k <= j ==> !OccursAt(s, p, j)
    decreases |s| - k
  {
    if k + |p| > |s| then None
    else if s[k..k + |p|] == p then Some(k)
    else IndexOfFrom(s, p, k + 1)
  }

  /** `s.indexOf(p)`, with `None` for JavaScript's -1. */
  function IndexOf(s: string, p: string): (r: Option<nat>)
    ensures r.Some? ==> OccursAt(s, p, r.value) && forall j :: 0 <= j < r.value ==> !OccursAt(s, p, j)
    ensures r.None? ==> forall j :: !OccursAt(s, p, j)
  {
    IndexOfFrom(s, p, 0)
  }

  /** `s.includes(p)`. */
  predicate Contains(s: string, p: string)
  {
    IndexOf(s, p).Some?
  }

  lemma ContainsIff(s: string, p: string)
    ensures Contains(s, p) <==> exists i :: OccursAt(s, p, i)
  {
    if !Contains(s, p) {
      forall i ensures !OccursAt(s, p, i) { }
    }
  }

  /** `s` contains `p` once `p` occurs at a known index. */
  lemma ContainsAt(s: string, p: string, i: int)
    requires OccursAt(s, p, i)
    ensures Contains(s, p)
  {
    ContainsIff(s, p);
  }

  /** A string lacking one of the characters of `p` cannot contain `p`. */
  lemma MissingCharNotContains(s: string, p: string, c: char)
    requires c in p && c !in s
    ensures !Contains(s, p)
  {
    var k :| 0 <= k < |p| && p[k] == c;
    forall i ensures !OccursAt(s, p, i) {
      if 0 <= i && i + |p| <= |s| {
        assert s[i..i + |p|][k] == s[i + k];
      }
    }
  }

  /**
   * When `a` does not hold the first character of `p`, the first occurrence
   * of `p` in `a + p + b` is the one right after `a`.
   */
  lemma IndexOfAfterPrefix(a: string, p: string, b: string)
    requires p != [] && p[0] !in a
    ensures IndexOf(a + p + b, p) == Some(|a|)
  {
    var s := a + p + b;
    assert OccursAt(s, p, |a|) by { assert s[|a|..|a| + |p|] == p; }
    forall j | 0 <= j < |a| ensures !OccursAt(s, p, j) {
      if j + |p| <= |s| {
        assert s[j..j + |p|][0] == a[j];
      }
    }
  }

  /**
   * `s.split(sep)[1]` for a string that contains `sep`: the text between the
   * first and the second occurrence of `sep`, or up to the end of `s` when
   * there is no second one.
   */
  function SplitSecond(s: string, sep: string): (r: string)
    requires sep != [] && Contains(s, sep)
    ensures !Contains(r, sep)
    ensures var rest := s[IndexOf(s, sep).value + |sep|..];
      |r| <= |rest| && r == rest[..|r|] && (r == rest || OccursAt(rest, sep, |r|))
      && forall k :: 0 <= k < |r| ==> !OccursAt(rest, sep, k)
  {
    var rest := s[IndexOf(s, sep).value + |sep|..];
    match IndexOf(rest, sep)
    case None => rest
    case Some(j) =>
      var r := rest[..j];
      forall i ensures !OccursAt(r, sep, i) {
        if 0 <= i && i + |sep| <= |r| {
          assert r[i..i + |sep|] == rest[i..i + |sep|];
          assert !OccursAt(rest, sep, i);
        }
      }
      r
  }

  /** The second piece of `a + sep + b` is `b` itself when `a` cannot start `sep` and `b` holds no `sep`. */
  lemma SplitSecondAfterPrefix(a: string, sep: string, b: string)
    requires sep != [] && sep[0] !in a && !Contains(b, sep)
    ensures Contains(a + sep + b, sep)
    ensures SplitSecond(a + sep + b, sep) == b
  {
    IndexOfAfterPrefix(a, sep, b);
    assert (a + sep + b)[|a| + |sep|..] == b;
  }
}
