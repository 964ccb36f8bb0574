/**
  * The few operations of Python's `str` the modelled code relies on: `pat in s`,
  * `s.split(sep)` and `s.strip()` in the cleaning of replies, and `s.lower()` in the title search.
  * `Find` (`s.find(pat)`) and `Join` (`sep.join(pieces)`) are used to state the contract of `split`.
  */
module PyStr {
  import opened Common

  /** `pat` occurs in `s` starting at position `i`. */
  predicate OccursAt(s: string, pat: string, i: int) {
    0 <= i && i + |pat| <= |s| && s[i..i + |pat|] == pat
  }

  /** Python's `pat in s`: `pat` is an infix of `s` (the empty string is an infix of every string). */
  predicate Contains(s: string, pat: string)
    ensures pat == [] ==> Contains(s, pat)
    ensures Contains(s, pat) ==> |pat| <= |s|
  {
    assert pat == [] ==> OccursAt(s, pat, 0);
    exists i | 0 <= i <= |s| - |pat| :: OccursAt(s, pat, i)
  }

  /** The first occurrence of `pat` in `s` at or after `from`. */
  function FindFrom(s: string, pat: string, from: nat): (r: Option<nat>)
    requires from <= |s|
    decreases |s| - from
    ensures r.Some? ==> from <= r.value && OccursAt(s, pat, r.value)
    ensures r.Some? ==> forall j | from <= j < r.value :: !OccursAt(s, pat, j)
    ensures r.None? ==> forall j | from <= j :: !OccursAt(s, pat, j)
  {
    if from + |pat| > |s| then None
    else if s[from..from + |pat|] == pat then Some(from)
    else FindFrom(s, pat, from + 1)
  }

  /** Python's `s.find(pat)`, with `None` for -1: the leftmost occurrence. */
  function Find(s: string, pat: string): (r: Option<nat>)
    ensures r.Some? ==> OccursAt(s, pat, r.value) && forall j | 0 <= j < r.value :: !OccursAt(s, pat, j)
    ensures r.None? <==> !Contains(s, pat)
  {
    FindFrom(s, pat, 0)
  }

  /** Python's `sep.join(pieces)`. */
  function Join(pieces: seq<string>, sep: string): string
  {
    if |pieces| == 0 then ""
    else if |pieces| == 1 then pieces[0]
    else pieces[0] + sep + Join(pieces[1..], sep)
  }

  lemma PrefixOccurrence(s: string, pat: string, i: nat, j: int)
    requires i <= |s|
    requires OccursAt(s[..i], pat, j)
    ensures OccursAt(s, pat, j)
  {
    assert s[..i][j..j + |pat|] == s[j..j + |pat|];
  }

  /** Cutting at the leftmost occurrence leaves a prefix without `pat`. */
  lemma PrefixBeforeFirstHasNone(s: string, pat: string, i: nat)
    requires i <= |s|
    requires forall j | 0 <= j < i :: !OccursAt(s, pat, j)
    requires pat != []
    ensures !Contains(s[..i], pat)
  {
    if Contains(s[..i], pat) {
      var j :| 0 <= j <= i - |pat| && OccursAt(s[..i], pat, j);
      PrefixOccurrence(s, pat, i, j);
    }
  }

  /**
    * Python's `s.split(sep)` for a non-empty separator: the pieces between the
    * non-overlapping occurrences found from left to right. They contain no `sep`,
    * they join back to `s`, and there are at least two exactly when `sep in s`.
    */
  function Split(s: string, sep: string): (pieces: seq<string>)
    requires sep != []
    decreases |s|
    ensures |pieces| >= 1
    ensures Join(pieces, sep) == s
    ensures forall k | 0 <= k < |pieces| :: !Contains(pieces[k], sep)
    ensures |pieces| >= 2 <==> Contains(s, sep)
    ensures |pieces[0]| <= |s| && pieces[0] == s[..|pieces[0]|]
    ensures forall j | 0 <= j < |pieces[0]| :: !OccursAt(s, sep, j)
    ensures |pieces| >= 2 ==> OccursAt(s, sep, |pieces[0]|)
  {
    match Find(s, sep)
    case None => [s]
    case Some(i) =>
      PrefixBeforeFirstHasNone(s, sep, i);
      var rest := Split(s[i + |sep|..], sep);
      assert s == s[..i] + sep + s[i + |sep|..] by {
        assert s[i..i + |sep|] == sep;
      }
      assert Contains(s, sep) by { assert OccursAt(s, sep, i); }
      [s[..i]] + rest
  }

  /** `s` cut at the first `sep`: Python's `s.split(sep)[0]`. */
  function Head(s: string, sep: string): (h: string)
    requires sep != []
    ensures |h| <= |s| && h == s[..|h|]
    ensures !Contains(h, sep)
    ensures h == s || OccursAt(s, sep, |h|)
    ensures forall j | 0 <= j < |h| :: !OccursAt(s, sep, j)
  {
    match Find(s, sep)
    case None => s
    case Some(i) => PrefixBeforeFirstHasNone(s, sep, i); s[..i]
  }

  lemma SplitFirst(s: string, sep: string)
    requires sep != []
    ensures Split(s, sep)[0] == Head(s, sep)
  {
  }

  /** Python's `s.split(sep)[1]`: what follows the first `sep`, up to the next one. */
  lemma SplitSecond(s: string, sep: string)
    requires sep != [] && Contains(s, sep)
    ensures Find(s, sep).Some?
    ensures Split(s, sep)[1] == Head(s[Find(s, sep).value + |sep|..], sep)
  {
    var i := Find(s, sep).value;
    SplitFirst(s[i + |sep|..], sep);
  }

  /** A string without `sep` is its own head. */
  lemma HeadOfSepFree(s: string, sep: string)
    requires sep != [] && !Contains(s, sep)
    ensures Head(s, sep) == s
  {
  }

  /** Being an infix is transitive. */
  lemma ContainsTransitive(a: string, b: string, c: string)
    requires Contains(a, b) && Contains(b, c)
    ensures Contains(a, c)
  {
    var i :| 0 <= i <= |a| - |b| && OccursAt(a, b, i);
    var j :| 0 <= j <= |b| - |c| && OccursAt(b, c, j);
    assert b == a[i..i + |b|];
    var x, y := a[i + j..i + j + |c|], b[j..j + |c|];
    assert x == y by {
      forall k | 0 <= k < |c| ensures x[k] == y[k] {
        assert b[j + k] == a[i..i + |b|][j + k];
      }
    }
    assert OccursAt(a, c, i + j);
  }

  /** An infix of a suffix of `s` is an infix of `s`. */
  lemma SuffixInfix(s: string, from: nat, t: string)
    requires from <= |s| && Contains(s[from..], t)
    ensures Contains(s, t)
  {
    assert OccursAt(s, s[from..], from);
    ContainsTransitive(s, s[from..], t);
  }

  /** Splitting at the first separator: the text before it, then the pieces of the text after it. */
  lemma SplitAtFirst(s: string, sep: string, i: nat)
    requires sep != [] && Find(s, sep) == Some(i)
    ensures i + |sep| <= |s|
    ensures Split(s, sep) == [s[..i]] + Split(s[i + |sep|..], sep)
  {
  }

  /**
    * When `sep` occurs, the first piece is followed by the first `sep`, and the other
    * pieces are those of the text after it.
    */
  lemma SplitRest(s: string, sep: string)
    requires sep != [] && Contains(s, sep)
    ensures var h := Split(s, sep)[0];
            && OccursAt(s, sep, |h|)
            && Split(s, sep)[1..] == Split(s[|h| + |sep|..], sep)
  {
    var i := Find(s, sep).value;
    SplitAtFirst(s, sep, i);
    assert Split(s, sep)[0] == s[..i];
  }

  /** Every piece of `s.split(sep)` is an infix of `s`. */
  lemma {:induction false} SplitPiecesAreInfixes(s: string, sep: string, k: nat)
    requires sep != [] && k < |Split(s, sep)|
    ensures Contains(s, Split(s, sep)[k])
    decreases |s|
  {
    var found := Find(s, sep);
    if found.None? {
      assert Split(s, sep) == [s];
      assert OccursAt(s, s, 0);
    } else {
      var i := found.value;
      var tail := s[i + |sep|..];
      SplitAtFirst(s, sep, i);
      if k == 0 {
        assert OccursAt(s, s[..i], 0);
      } else {
        SplitPiecesAreInfixes(tail, sep, k - 1);
        SuffixInfix(s, i + |sep|, Split(tail, sep)[k - 1]);
      }
    }
  }

  // ----- str.strip() -----

  /** Python's `str.isspace()` for one character (the characters `str.strip()` removes). */
  predicate IsSpace(c: char)
    ensures c == ' ' || c == '\t' || c == '\n' || c == '\r' ==> IsSpace(c)
    ensures '!' <= c <= '~' ==> !IsSpace(c)
  {
    || c == ' '
    || ('\t' <= c <= '\r')
    || ('\U{1C}' <= c <= '\U{1F}')
    || c == '\U{85}' || c == '\U{A0}' || c == '\U{1680}'
    || ('\U{2000}' <= c <= '\U{200A}')
    || c == '\U{2028}' || c == '\U{2029}' || c == '\U{202F}' || c == '\U{205F}' || c == '\U{3000}'
  }

  /** `s.lstrip()`: the suffix of `s` left after dropping its leading whitespace. */
  function TrimStart(s: string): (r: string)
    ensures |r| <= |s| && r == s[|s| - |r|..]
    ensures forall i | 0 <= i < |s| - |r| :: IsSpace(s[i])
    ensures r == [] || !IsSpace(r[0])
  {
    if |s| > 0 && IsSpace(s[0]) then TrimStart(s[1..]) else s
  }

  /** `s.rstrip()`: the prefix of `s` left after dropping its trailing whitespace. */
  function TrimEnd(s: string): (r: string)
    ensures |r| <= |s| && r == s[..|r|]
    ensures forall i | |r| <= i < |s| :: IsSpace(s[i])
    ensures r == [] || !IsSpace(r[|r| - 1])
  {
    if |s| > 0 && IsSpace(s[|s| - 1]) then TrimEnd(s[..|s| - 1]) else s
  }

  /** `r` is the infix of `s` at `i`, and everything of `s` before and after it is whitespace. */
  predicate TrimmedAt(s: string, r: string, i: nat) {
    && i + |r| <= |s| && r == s[i..i + |r|]
    && (forall k | 0 <= k < i :: IsSpace(s[k]))
    && (forall k | i + |r| <= k < |s| :: IsSpace(s[k]))
  }

  /**
    * `s.strip()`: an infix of `s` that neither starts nor ends with whitespace, and
    * everything cut off on either side is whitespace.
    */
  function Strip(s: string): (r: string)
    ensures Contains(s, r)
    ensures r == [] || (!IsSpace(r[0]) && !IsSpace(r[|r| - 1]))
    ensures exists i | 0 <= i <= |s| :: TrimmedAt(s, r, i)
  {
    var t := TrimStart(s);
    var r := TrimEnd(t);
    TrimBoth(s, t, r);
    assert OccursAt(s, r, |s| - |t|);
    r
  }

  /** Dropping leading whitespace and then trailing whitespace leaves `s` trimmed at the first cut. */
  lemma TrimBoth(s: string, t: string, r: string)
    requires |t| <= |s| && t == s[|s| - |t|..]
    requires forall k | 0 <= k < |s| - |t| :: IsSpace(s[k])
    requires |r| <= |t| && r == t[..|r|]
    requires forall k | |r| <= k < |t| :: IsSpace(t[k])
    ensures TrimmedAt(s, r, |s| - |t|)
  {
    var i := |s| - |t|;
    assert r == s[i..i + |r|] by {
      assert s[i..][..|r|] == s[i..i + |r|];
    }
    forall k | i + |r| <= k < |s| ensures IsSpace(s[k]) {
      assert s[k] == t[k - i];
    }
  }

  /** A string without surrounding whitespace is left alone by `strip()`. */
  lemma StripFixedPoint(s: string)
    requires s == [] || (!IsSpace(s[0]) && !IsSpace(s[|s| - 1]))
    ensures Strip(s) == s
  {
    assert TrimStart(s) == s;
  }

  lemma StripIdempotent(s: string)
    ensures Strip(Strip(s)) == Strip(s)
  {
    StripFixedPoint(Strip(s));
  }

  // ----- str.lower() -----

  /** ASCII case folding of one character. */
  function LowerChar(c: char): (d: char)
    ensures 'A' <= c <= 'Z' ==> 'a' <= d <= 'z' && d as int == c as int + 32
    ensures !('A' <= c <= 'Z') ==> d == c
  {
    if 'A' <= c <= 'Z' then (c as int - 'A' as int + 'a' as int) as char else c
  }

  /** `s.lower()` restricted to ASCII letters. */
  function Lower(s: string): (r: string)
    ensures |r| == |s|
    ensures forall i | 0 <= i < |s| :: r[i] == LowerChar(s[i])
  {
    seq(|s|, i requires 0 <= i < |s| => LowerChar(s[i]))
  }

  /** Lower-casing an already lower-cased string changes nothing. */
  lemma LowerIdempotent(s: string)
    ensures Lower(Lower(s)) == Lower(s)
  {
    forall i | 0 <= i < |s| ensures Lower(Lower(s))[i] == Lower(s)[i] {
      var c := s[i];
      assert !('A' <= LowerChar(c) <= 'Z');
    }
  }

  /** `a` and `b` differ at most in the case of ASCII letters. */
  predicate CaseVariants(a: string, b: string) {
    && |a| == |b|
    && forall i | 0 <= i < |a| ::
         || a[i] == b[i]
         || ('A' <= a[i] <= 'Z' && b[i] as int == a[i] as int + 32)
         || ('A' <= b[i] <= 'Z' && a[i] as int == b[i] as int + 32)
  }

  /** Strings that differ only in the case of ASCII letters lower-case alike. */
  lemma CaseVariantsLowerAlike(a: string, b: string)
    requires CaseVariants(a, b)
    ensures Lower(a) == Lower(b)
  {
    forall i | 0 <= i < |a| ensures Lower(a)[i] == Lower(b)[i] {
      if 'A' <= a[i] <= 'Z' && b[i] as int == a[i] as int + 32 {
        assert 'a' <= b[i] <= 'z';
      } else if 'A' <= b[i] <= 'Z' && a[i] as int == b[i] as int + 32 {
        assert 'a' <= a[i] <= 'z';
      }
    }
  }
}
