/** The Python string operations the handlers rely on: prefix test,
    single replacement, whitespace stripping, and comma joining. */
module Text {

  predicate StartsWith(s: string, prefix: string) {
    |prefix| <= |s| && s[..|prefix|] == prefix
  }

  /** Python's `s.replace(pat, rep, 1)`: the first occurrence of `pat` is
      replaced; an empty `pat` matches at the start. */
  function ReplaceFirst(s: string, pat: string, rep: string): string
    decreases |s|
  {
    if StartsWith(s, pat) then rep + s[|pat|..]
    else if s == [] then s
    else [s[0]] + ReplaceFirst(s[1..], pat, rep)
  }

  /** The replacement splices `rep` over the first occurrence of `pat`, and
      leaves a string without one as it is. */
  lemma {:induction false} ReplaceFirstSplices(s: string, pat: string, rep: string)
    ensures var i := FirstOccurrence(s, pat);
            && (i > |s| ==> ReplaceFirst(s, pat, rep) == s)
            && (i <= |s| ==> ReplaceFirst(s, pat, rep) == s[..i] + rep + s[i + |pat|..])
    decreases |s|
  {
    if StartsWith(s, pat) {
      assert FirstOccurrence(s, pat) == 0;
      assert s[..0] == [];
    } else if s == [] {
      assert FirstOccurrence(s, pat) == 1;
    } else {
      var t := s[1..];
      ReplaceFirstSplices(t, pat, rep);
      var i := FirstOccurrence(t, pat);
      assert FirstOccurrence(s, pat) == 1 + i;
      assert ReplaceFirst(s, pat, rep) == [s[0]] + ReplaceFirst(t, pat, rep);
      if i <= |t| {
        SpliceAfterHead(s, i, pat, rep);
        assert ReplaceFirst(s, pat, rep) == s[..i + 1] + rep + s[i + 1 + |pat|..];
      } else {
        assert [s[0]] + t == s;
        assert ReplaceFirst(s, pat, rep) == s;
      }
    }
  }

  /** A splice in the tail of `s` is the splice one position further on in `s`. */
  lemma SpliceAfterHead(s: string, i: nat, pat: string, rep: string)
    requires s != [] && i + |pat| <= |s| - 1
    ensures [s[0]] + (s[1..][..i] + rep + s[1..][i + |pat|..]) == s[..i + 1] + rep + s[i + 1 + |pat|..]
  {
    assert [s[0]] + s[1..][..i] == s[..i + 1];
    assert s[1..][i + |pat|..] == s[i + 1 + |pat|..];
  }

  /** The first position at which `pat` occurs in `s`, or `|s| + 1` when it
      occurs nowhere. */
  function FirstOccurrence(s: string, pat: string): (i: nat)
    ensures i <= |s| + 1
    ensures i <= |s| ==> OccursAt(s, pat, i)
    ensures forall j: nat :: j < i && j <= |s| ==> !OccursAt(s, pat, j)
    decreases |s|
  {
    if StartsWith(s, pat) then 0
    else if s == [] then 1
    else
      OccursShift(s, pat);
      1 + FirstOccurrence(s[1..], pat)
  }

  /** An occurrence after the first character is an occurrence in the rest. */
  lemma OccursShift(s: string, pat: string)
    requires s != []
    ensures forall j: nat :: 1 <= j <= |s| ==> (OccursAt(s, pat, j) <==> OccursAt(s[1..], pat, j - 1))
  {
    forall j: nat | 1 <= j <= |s| ensures OccursAt(s, pat, j) <==> OccursAt(s[1..], pat, j - 1) {
      if j + |pat| <= |s| {
        assert s[1..][j - 1..j - 1 + |pat|] == s[j..j + |pat|];
      }
    }
  }

  /** Replacing the first occurrence of a prefix by nothing drops the prefix. */
  lemma ReplaceFirstOfPrefix(s: string, pat: string)
    requires StartsWith(s, pat)
    ensures ReplaceFirst(s, pat, "") == s[|pat|..]
  {
  }

  /** `pat` occurs in `s` at position `i`. */
  predicate OccursAt(s: string, pat: string, i: nat) {
    i + |pat| <= |s| && s[i..i + |pat|] == pat
  }

  /** A string in which `pat` does not occur is left as it is. */
  lemma {:induction false} ReplaceFirstAbsent(s: string, pat: string, rep: string)
    requires pat != []
    requires forall i: nat :: i <= |s| ==> !OccursAt(s, pat, i)
    ensures ReplaceFirst(s, pat, rep) == s
    decreases |s|
  {
    assert !OccursAt(s, pat, 0);
    if s != [] {
      var t := s[1..];
      forall i: nat | i <= |t|
        ensures !OccursAt(t, pat, i)
      {
        assert !OccursAt(s, pat, i + 1);
        if i + |pat| <= |t| {
          assert t[i..i + |pat|] == s[i + 1..i + 1 + |pat|];
        }
      }
      ReplaceFirstAbsent(t, pat, rep);
    }
  }

  /** Python's `str.isspace` for one character. */
  predicate IsPySpace(c: char) {
    ('\t' <= c <= '\r') || ('\U{1C}' <= c <= ' ') || c == '\U{85}' || c == '\U{A0}'
    || c == '\U{1680}' || ('\U{2000}' <= c <= '\U{200A}') || c == '\U{2028}' || c == '\U{2029}'
    || c == '\U{202F}' || c == '\U{205F}' || c == '\U{3000}'
  }

  predicate AllSpace(s: string) {
    forall i :: 0 <= i < |s| ==> IsPySpace(s[i])
  }

  /** `s.lstrip()`: the longest suffix of `s` that does not start with whitespace. */
  function StripLeft(s: string): (r: string)
    ensures |r| <= |s| && r == s[|s| - |r|..]
    ensures AllSpace(s[..|s| - |r|])
    ensures r != [] ==> !IsPySpace(r[0])
    decreases |s|
  {
    if s != [] && IsPySpace(s[0]) then
      var r := StripLeft(s[1..]);
      assert s[..|s| - |r|] == [s[0]] + s[1..][..|s| - 1 - |r|];
      r
    else s
  }

  /** `s.rstrip()`: the longest prefix of `s` that does not end with whitespace. */
  function StripRight(s: string): (r: string)
    ensures |r| <= |s| && r == s[..|r|]
    ensures AllSpace(s[|r|..])
    ensures r != [] ==> !IsPySpace(r[|r| - 1])
    decreases |s|
  {
    if s != [] && IsPySpace(s[|s| - 1]) then
      var r := StripRight(s[..|s| - 1]);
      assert s[|r|..] == s[..|s| - 1][|r|..] + [s[|s| - 1]];
      r
    else s
  }

  /** `s.strip()`: `s` without its leading and trailing whitespace. The
      result is the slice of `s` that starts after the leading whitespace
      and is followed by nothing but whitespace. */
  function Strip(s: string): string {
    StripRight(StripLeft(s))
  }

  /** With `l` the text after the leading whitespace, the stripped text is
      the slice of `s` that starts where `l` does, only whitespace follows
      it, and it neither starts nor ends with whitespace. */
  lemma StripIsSlice(s: string, l: string, r: string)
    requires l == StripLeft(s) && r == Strip(s)
    ensures r != [] ==> !IsPySpace(r[0]) && !IsPySpace(r[|r| - 1])
    ensures |s| - |l| + |r| <= |s|
    ensures r == s[|s| - |l|..|s| - |l| + |r|]
    ensures AllSpace(s[|s| - |l| + |r|..])
  {
    PrefixOfSuffix(s, l, r);
    var tail := l[|r|..];
    assert AllSpace(tail);
    SameSpace(tail, s[|s| - |l| + |r|..]);
  }

  lemma SameSpace(a: string, b: string)
    requires AllSpace(a) && a == b
    ensures AllSpace(b)
  {
  }

  /** A prefix `r` of a suffix `l` of `s` is a slice of `s`, and what
      follows `r` in `l` is what follows it in `s`. */
  lemma PrefixOfSuffix(s: string, l: string, r: string)
    requires |r| <= |l| <= |s| && l == s[|s| - |l|..] && r == l[..|r|]
    ensures r == s[|s| - |l|..|s| - |l| + |r|]
    ensures s[|s| - |l| + |r|..] == l[|r|..]
    ensures r != [] ==> r[0] == l[0]
  {
  }

  /** Whitespace padding around a word that neither starts nor ends with
      whitespace is exactly what stripping removes. */
  lemma {:induction false} StripPadded(a: string, w: string, b: string)
    requires AllSpace(a) && AllSpace(b)
    requires w != [] ==> !IsPySpace(w[0]) && !IsPySpace(w[|w| - 1])
    ensures Strip(a + w + b) == w
  {
    if w == [] {
      assert a + w + b == (a + b) + [];
      StripLeftPadded(a + b, []);
    } else {
      assert a + w + b == a + (w + b);
      StripLeftPadded(a, w + b);
      StripRightPadded(w, b);
    }
  }

  lemma {:induction false} StripLeftPadded(a: string, t: string)
    requires AllSpace(a)
    requires t != [] ==> !IsPySpace(t[0])
    ensures StripLeft(a + t) == t
    decreases |a|
  {
    if a != [] {
      assert (a + t)[1..] == a[1..] + t;
      StripLeftPadded(a[1..], t);
    } else {
      assert a + t == t;
    }
  }

  lemma {:induction false} StripRightPadded(t: string, b: string)
    requires AllSpace(b)
    requires t != [] ==> !IsPySpace(t[|t| - 1])
    ensures StripRight(t + b) == t
    decreases |b|
  {
    if b != [] {
      assert (t + b)[..|t + b| - 1] == t + b[..|b| - 1];
      StripRightPadded(t, b[..|b| - 1]);
    } else {
      assert t + b == t;
    }
  }

  /** Python's `sep.join(xs)` for a one-character separator: the pieces in
      order, the first one leading. */
  function Join(xs: seq<string>, sep: char): (r: string)
    ensures |xs| >= 1 ==> StartsWith(r, xs[0])
  {
    if |xs| == 0 then ""
    else if |xs| == 1 then xs[0]
    else xs[0] + [sep] + Join(xs[1..], sep)
  }

  /** Joining separator-free pieces puts exactly one separator between
      each two. */
  lemma {:induction false} JoinCountsSeparators(xs: seq<string>, sep: char)
    requires |xs| >= 1 && forall k :: 0 <= k < |xs| ==> Free(xs[k], sep)
    ensures Count(Join(xs, sep), sep) == |xs| - 1
    decreases |xs|
  {
    CountFree(xs[0], sep);
    if |xs| > 1 {
      var rest := Join(xs[1..], sep);
      JoinCountsSeparators(xs[1..], sep);
      CountAppend(xs[0], [sep] + rest, sep);
      CountAppend([sep], rest, sep);
      assert xs[0] + [sep] + rest == xs[0] + ([sep] + rest);
    }
  }

  /** How often `c` occurs in `s`. */
  function Count(s: string, c: char): nat {
    if s == [] then 0 else (if s[0] == c then 1 else 0) + Count(s[1..], c)
  }

  lemma {:induction false} CountAppend(a: string, b: string, c: char)
    ensures Count(a + b, c) == Count(a, c) + Count(b, c)
  {
    if a == [] {
      assert a + b == b;
    } else {
      assert (a + b)[1..] == a[1..] + b;
      CountAppend(a[1..], b, c);
    }
  }

  lemma {:induction false} CountFree(x: string, c: char)
    ensures Free(x, c) ==> Count(x, c) == 0
  {
    if x != [] {
      assert Free(x, c) ==> Free(x[1..], c);
      CountFree(x[1..], c);
    }
  }

  /** Python's `s.split(sep)` for a one-character separator: always at least one piece. */
  function Split(s: string, sep: char): (r: seq<string>)
    ensures |r| >= 1
    decreases |s|
  {
    if s == [] then [""]
    else
      var rest := Split(s[1..], sep);
      if s[0] == sep then [""] + rest else [[s[0]] + rest[0]] + rest[1..]
  }

  predicate Free(x: string, sep: char) {
    forall i :: 0 <= i < |x| ==> x[i] != sep
  }

  /** Splitting a joined, non-empty list of separator-free codes gives the list back. */
  lemma {:induction false} SplitJoin(xs: seq<string>, sep: char)
    requires |xs| >= 1
    requires forall k :: 0 <= k < |xs| ==> Free(xs[k], sep)
    ensures Split(Join(xs, sep), sep) == xs
    decreases |xs|
  {
    if |xs| == 1 {
      SplitFree(xs[0], sep, []);
      assert xs[0] + [] == xs[0];
    } else {
      SplitJoin(xs[1..], sep);
      SplitFree(xs[0], sep, [sep] + Join(xs[1..], sep));
      var j := Join(xs[1..], sep);
      SplitAtSep(j, sep);
      assert xs[0] + [sep] + j == xs[0] + ([sep] + j);
      var parts := Split([sep] + j, sep);
      assert parts[0] == "" && parts[1..] == xs[1..];
      assert xs[0] + parts[0] == xs[0];
      assert [xs[0]] + xs[1..] == xs;
    }
  }

  lemma SplitAtSep(t: string, sep: char)
    ensures Split([sep] + t, sep) == [""] + Split(t, sep)
  {
    assert ([sep] + t)[1..] == t;
  }

  /** A separator-free prefix glues onto the first piece. */
  lemma {:induction false} SplitFree(x: string, sep: char, t: string)
    requires Free(x, sep)
    requires t == [] || t[0] == sep
    ensures Split(x + t, sep) == [x + Split(t, sep)[0]] + Split(t, sep)[1..]
    decreases |x|
  {
    if x == [] {
      assert x + t == t;
      if t == [] {
      } else {
        assert Split(t, sep)[0] == "";
      }
    } else {
      assert (x + t)[1..] == x[1..] + t;
      SplitFree(x[1..], sep, t);
      assert [x[0]] + (x[1..] + Split(t, sep)[0]) == x + Split(t, sep)[0];
    }
  }

  /** Joining is not injective once a code holds the separator: two
      different code lists are stored as the same text. */
  lemma JoinCollision()
    ensures Join(["a,b"], ',') == Join(["a", "b"], ',')
    ensures ["a,b"] != ["a", "b"]
  {
  }
}
