/**
 * String primitives shared by the Python loader/service and the browser scripts:
 * whitespace stripping in each runtime's sense, splitting and joining on a
 * separator, ASCII case mapping and JavaScript's UTF-16 view of a string.
 */
module Text {
  import opened Wrappers

  /** Whose whitespace rules a strip follows. */
  datatype Runtime = Python | JavaScript

  /**
   * Python's `str.isspace()` and the characters JavaScript's `trim()` removes.
   * They agree except on U+001C..U+001F and U+0085 (Python only) and U+FEFF
   * (JavaScript only).
   */
  predicate IsSpace(rt: Runtime, c: char) {
    || ('\t' <= c <= '\r') || c == ' ' || c == '\U{A0}' || c == '\U{1680}'
    || ('\U{2000}' <= c <= '\U{200A}') || c == '\U{2028}' || c == '\U{2029}'
    || c == '\U{202F}' || c == '\U{205F}' || c == '\U{3000}'
    || (rt == Python && (('\U{1C}' <= c <= '\U{1F}') || c == '\U{85}'))
    || (rt == JavaScript && c == '\U{FEFF}')
  }

  /** `IsSpace` as a value, so that the stripping below can be stated once for any test. */
  function SpaceTest(rt: Runtime): char -> bool {
    c => IsSpace(rt, c)
  }

  /** Every character of `s` passes `sp`. */
  predicate All(sp: char -> bool, s: string) {
    forall k :: 0 <= k < |s| ==> sp(s[k])
  }

  predicate AllSpace(rt: Runtime, s: string) {
    All(SpaceTest(rt), s)
  }

  /** How many characters passing `sp` there are in a row in `s` from position `k` on. */
  function SpaceRunFrom(sp: char -> bool, s: string, k: nat): (n: nat)
    requires k <= |s|
    ensures k + n <= |s|
    ensures forall m :: k <= m < k + n ==> sp(s[m])
    ensures k + n == |s| || !sp(s[k + n])
    decreases |s| - k
  {
    if k < |s| && sp(s[k]) then SpaceRunFrom(sp, s, k + 1) + 1 else 0
  }

  /** How many characters passing `sp` there are in a row in `s` just before position `e`. */
  function SpaceRunBefore(sp: char -> bool, s: string, e: nat): (n: nat)
    requires e <= |s|
    ensures n <= e
    ensures forall m :: e - n <= m < e ==> sp(s[m])
    ensures n == e || !sp(s[e - n - 1])
  {
    if e > 0 && sp(s[e - 1]) then SpaceRunBefore(sp, s, e - 1) + 1 else 0
  }

  function LeadingSpace(sp: char -> bool, s: string): nat {
    SpaceRunFrom(sp, s, 0)
  }

  function TrailingSpace(sp: char -> bool, s: string): nat {
    SpaceRunBefore(sp, s, |s|)
  }

  lemma AllAppend(sp: char -> bool, a: string, b: string)
    requires All(sp, a) && All(sp, b)
    ensures All(sp, a + b)
  {
  }

  /**
   * `b[i..j]`, built one character at a time so that the verifier expands it
   * only as far as a proof asks for.
   */
  function Sub(b: string, i: nat, j: nat): (r: string)
    requires i <= j <= |b|
    ensures |r| == j - i
    ensures i < j ==> r[0] == b[i] && r[|r| - 1] == b[j - 1]
    decreases j - i
  {
    if i == j then [] else [b[i]] + Sub(b, i + 1, j)
  }

  lemma {:induction false} SubAt(b: string, i: nat, j: nat, k: nat)
    requires i <= j <= |b| && k < j - i
    ensures Sub(b, i, j)[k] == b[i + k]
    decreases k
  {
    if k > 0 {
      SubAt(b, i + 1, j, k - 1);
    }
  }

  lemma {:induction false} SubIsSlice(b: string, i: nat, j: nat)
    requires i <= j <= |b|
    ensures Sub(b, i, j) == b[i..j]
    decreases j - i
  {
    if i < j {
      SubIsSlice(b, i + 1, j);
      assert b[i..j] == [b[i]] + b[i + 1..j];
    }
  }

  /** A piece of a piece is a piece of the whole. */
  lemma {:induction false} SubOfSub(c: string, k: nat, l: nat, i: nat, j: nat, p: nat, q: nat)
    requires k <= l <= |c| && i <= j <= l - k && p == k + i && q == k + j
    ensures Sub(Sub(c, k, l), i, j) == Sub(c, p, q)
    decreases j - i
  {
    if i < j {
      SubAt(c, k, l, i);
      SubOfSub(c, k, l, i + 1, j, p + 1, q);
    }
  }

  /** Cutting the same piece out of `s` or out of `w + s`. */
  lemma {:induction false} SubShift(w: string, s: string, i: nat, j: nat, a: nat, b: nat)
    requires i <= j <= |s| && a == |w| + i && b == |w| + j
    ensures Sub(w + s, a, b) == Sub(s, i, j)
    decreases j - i
  {
    if i < j {
      assert (w + s)[a] == s[i];
      SubShift(w, s, i + 1, j, a + 1, b);
    }
  }

  /** Cutting the same piece out of `s` or out of `s + w`. */
  lemma {:induction false} SubKeep(s: string, w: string, i: nat, j: nat)
    requires i <= j <= |s|
    ensures Sub(s + w, i, j) == Sub(s, i, j)
    decreases j - i
  {
    if i < j {
      assert (s + w)[i] == s[i];
      SubKeep(s, w, i + 1, j);
    }
  }

  /** The text between the leading and the trailing run of characters passing `sp`. */
  function Trim(sp: char -> bool, s: string): (r: string)
    ensures |r| <= |s|
    ensures r == [] || (!sp(r[0]) && !sp(r[|r| - 1]))
    ensures r == [] <==> All(sp, s)
  {
    var i := LeadingSpace(sp, s);
    if i == |s| then []
    else
      var j := TrailingSpace(sp, s);
      assert sp(s[i]) == false;
      Sub(s, i, |s| - j)
  }

  /** Unless everything passes `sp`, the trimmed text is the input between its two runs. */
  lemma TrimAt(sp: char -> bool, s: string)
    ensures !All(sp, s) ==> LeadingSpace(sp, s) <= |s| - TrailingSpace(sp, s)
    ensures !All(sp, s) ==> Trim(sp, s) == s[LeadingSpace(sp, s)..|s| - TrailingSpace(sp, s)]
  {
    var i := LeadingSpace(sp, s);
    if i < |s| {
      var e := |s| - TrailingSpace(sp, s);
      TrimIsSub(sp, s, i, e);
      SubIsSlice(s, i, e);
    }
  }

  /** A trim only cuts: its result is a contiguous piece of the input. */
  lemma TrimSlice(sp: char -> bool, s: string)
    ensures IsSlice(Trim(sp, s), s)
  {
    var i := LeadingSpace(sp, s);
    if i == |s| {
      assert Trim(sp, s) == Sub(s, 0, 0);
    } else {
      TrimIsSub(sp, s, i, |s| - TrailingSpace(sp, s));
    }
  }

  lemma TrimIdentity(sp: char -> bool, s: string)
    requires s == [] || (!sp(s[0]) && !sp(s[|s| - 1]))
    ensures Trim(sp, s) == s
  {
    if s != [] {
      assert LeadingSpace(sp, s) == 0;
      assert TrailingSpace(sp, s) == 0;
      SubIsSlice(s, 0, |s|);
      assert s[0..|s|] == s;
    }
  }

  /** Counting forward inside `s` is not affected by what precedes it. */
  lemma {:induction false} SpaceRunFromShift(sp: char -> bool, w: string, s: string, k: nat)
    requires k <= |s|
    ensures SpaceRunFrom(sp, w + s, |w| + k) == SpaceRunFrom(sp, s, k)
    decreases |s| - k
  {
    if k < |s| {
      assert (w + s)[|w| + k] == s[k];
      SpaceRunFromShift(sp, w, s, k + 1);
    }
  }

  /** A prefix that passes `sp` throughout adds its length to the leading run. */
  lemma {:induction false} SpaceRunFromPrefix(sp: char -> bool, w: string, s: string, k: nat)
    requires All(sp, w) && k <= |w|
    ensures SpaceRunFrom(sp, w + s, k) == |w| - k + LeadingSpace(sp, s)
    decreases |w| - k
  {
    if k < |w| {
      assert (w + s)[k] == w[k];
      SpaceRunFromPrefix(sp, w, s, k + 1);
    } else {
      SpaceRunFromShift(sp, w, s, 0);
    }
  }

  /** Counting backward inside `s` is not affected by what follows it. */
  lemma {:induction false} SpaceRunBeforeKeep(sp: char -> bool, s: string, w: string, e: nat)
    requires e <= |s|
    ensures SpaceRunBefore(sp, s + w, e) == SpaceRunBefore(sp, s, e)
  {
    if e > 0 {
      assert (s + w)[e - 1] == s[e - 1];
      SpaceRunBeforeKeep(sp, s, w, e - 1);
    }
  }

  /** A suffix that passes `sp` throughout adds its length to the trailing run. */
  lemma {:induction false} SpaceRunBeforeSuffix(sp: char -> bool, s: string, w: string, k: nat)
    requires All(sp, w) && k <= |w|
    ensures SpaceRunBefore(sp, s + w, |s| + k) == k + TrailingSpace(sp, s)
  {
    if k > 0 {
      assert (s + w)[|s| + k - 1] == w[k - 1];
      SpaceRunBeforeSuffix(sp, s, w, k - 1);
    } else {
      SpaceRunBeforeKeep(sp, s, w, |s|);
    }
  }

  /** Counting backward past a character failing `sp` stays inside `s`. */
  lemma {:induction false} SpaceRunBeforeShift(sp: char -> bool, w: string, s: string, e: nat)
    requires e <= |s| && SpaceRunBefore(sp, s, e) < e
    ensures SpaceRunBefore(sp, w + s, |w| + e) == SpaceRunBefore(sp, s, e)
  {
    assert (w + s)[|w| + e - 1] == s[e - 1];
    if sp(s[e - 1]) {
      SpaceRunBeforeShift(sp, w, s, e - 1);
    }
  }

  /** A prefix that passes `sp` throughout never survives a trim. */
  lemma TrimSpacePrefix(sp: char -> bool, w: string, s: string)
    requires All(sp, w)
    ensures Trim(sp, w + s) == Trim(sp, s)
  {
    if LeadingSpace(sp, s) == |s| {
      assert All(sp, s);
      AllAppend(sp, w, s);
    } else {
      TrimKeptSpacePrefix(sp, w, s);
    }
  }

  lemma TrimKeptSpacePrefix(sp: char -> bool, w: string, s: string)
    requires All(sp, w) && LeadingSpace(sp, s) < |s|
    ensures Trim(sp, w + s) == Trim(sp, s)
  {
    var i := LeadingSpace(sp, s);
    var e := |s| - TrailingSpace(sp, s);
    var a, b := |w| + i, |w| + e;
    TrimBehindSpace(sp, w, s, i, e, a, b);
    TrimIsSub(sp, s, i, e);
    SubShift(w, s, i, e, a, b);
    EqualChain(Trim(sp, w + s), Sub(w + s, a, b), Sub(s, i, e), Trim(sp, s));
  }

  /** Equality is transitive; stated for strings so that long chains close in one step. */
  lemma EqualChain(a: string, b: string, c: string, d: string)
    requires a == b && b == c && c == d
    ensures a == d
  {
  }

  lemma TrimBehindSpace(sp: char -> bool, w: string, s: string, i: nat, e: nat, a: nat, b: nat)
    requires All(sp, w) && i == LeadingSpace(sp, s) < |s| && e == |s| - TrailingSpace(sp, s)
    requires a == |w| + i && b == |w| + e
    ensures a <= b <= |w + s|
    ensures Trim(sp, w + s) == Sub(w + s, a, b)
  {
    SpaceRunFromPrefix(sp, w, s, 0);
    assert sp(s[i]) == false;
    SpaceRunBeforeShift(sp, w, s, |s|);
    TrimIsSub(sp, w + s, a, b);
  }

  /** A trim that keeps something cuts from the first to past the last failing character. */
  lemma TrimIsSub(sp: char -> bool, s: string, i: nat, e: nat)
    requires i == LeadingSpace(sp, s) && i < |s| && e == |s| - TrailingSpace(sp, s)
    ensures i <= e && Trim(sp, s) == Sub(s, i, e)
  {
  }

  /** Passing characters around an already trimmed string are exactly what a trim removes. */
  lemma TrimPadded(sp: char -> bool, w1: string, s: string, w2: string)
    requires All(sp, w1) && All(sp, w2)
    requires s == [] || (!sp(s[0]) && !sp(s[|s| - 1]))
    ensures Trim(sp, w1 + s + w2) == s
  {
    assert w1 + s + w2 == w1 + (s + w2);
    TrimSpacePrefix(sp, w1, s + w2);
    if s == [] {
      assert s + w2 == w2;
    } else {
      assert LeadingSpace(sp, s + w2) == 0 by {
        assert (s + w2)[0] == s[0];
      }
      assert TrailingSpace(sp, s + w2) == |w2| by {
        SpaceRunBeforeSuffix(sp, s, w2, |w2|);
        assert TrailingSpace(sp, s) == 0;
      }
      SubKeep(s, w2, 0, |s|);
      SubIsSlice(s, 0, |s|);
      assert s[0..|s|] == s;
    }
  }

  /**
   * Python's `s.strip()` and JavaScript's `s.trim()`: the text between the
   * leading and the trailing whitespace, nothing when there is only whitespace.
   */
  function Strip(rt: Runtime, s: string): (r: string)
    ensures |r| <= |s|
    ensures r == [] || (!IsSpace(rt, r[0]) && !IsSpace(rt, r[|r| - 1]))
    ensures r == [] <==> AllSpace(rt, s)
  {
    Trim(SpaceTest(rt), s)
  }

  /**
   * Unless the input is all whitespace, the stripped text is exactly the input
   * between its leading and its trailing whitespace.
   */
  lemma StripAt(rt: Runtime, s: string)
    ensures !AllSpace(rt, s) ==> LeadingSpace(SpaceTest(rt), s) <= |s| - TrailingSpace(SpaceTest(rt), s)
    ensures !AllSpace(rt, s) ==>
      Strip(rt, s) == s[LeadingSpace(SpaceTest(rt), s)..|s| - TrailingSpace(SpaceTest(rt), s)]
  {
    TrimAt(SpaceTest(rt), s);
  }

  /** Stripping adds no character. */
  lemma StripAvoids(rt: Runtime, s: string, c: char)
    requires c !in s
    ensures c !in Strip(rt, s)
  {
    StripAt(rt, s);
  }

  /** A string that already has no surrounding whitespace is left alone. */
  lemma StripIdentity(rt: Runtime, s: string)
    requires s == [] || (!IsSpace(rt, s[0]) && !IsSpace(rt, s[|s| - 1]))
    ensures Strip(rt, s) == s
  {
    TrimIdentity(SpaceTest(rt), s);
  }

  /** Stripping twice is stripping once. */
  lemma StripIdempotent(rt: Runtime, s: string)
    ensures Strip(rt, Strip(rt, s)) == Strip(rt, s)
  {
    StripIdentity(rt, Strip(rt, s));
  }

  /** Leading whitespace never survives a strip. */
  lemma StripSpacePrefix(rt: Runtime, w: string, s: string)
    requires AllSpace(rt, w)
    ensures Strip(rt, w + s) == Strip(rt, s)
  {
    TrimSpacePrefix(SpaceTest(rt), w, s);
  }

  /** Whitespace around an already stripped string is exactly what a strip removes. */
  lemma StripPadded(rt: Runtime, w1: string, s: string, w2: string)
    requires AllSpace(rt, w1) && AllSpace(rt, w2)
    requires s == [] || (!IsSpace(rt, s[0]) && !IsSpace(rt, s[|s| - 1]))
    ensures Strip(rt, w1 + s + w2) == s
  {
    TrimPadded(SpaceTest(rt), w1, s, w2);
  }

  /** `a` is a contiguous piece of `b`. */
  predicate IsSlice(a: string, b: string) {
    exists i: nat, j: nat :: i <= j <= |b| && a == Sub(b, i, j)
  }

  lemma SliceOfSlice(a: string, b: string, c: string)
    requires IsSlice(a, b) && IsSlice(b, c)
    ensures IsSlice(a, c)
  {
    var i: nat, j: nat :| i <= j <= |b| && a == Sub(b, i, j);
    var k: nat, l: nat :| k <= l <= |c| && b == Sub(c, k, l);
    SubOfSub(c, k, l, i, j, k + i, k + j);
  }

  /** A strip only cuts: its result is a contiguous piece of the input. */
  lemma StripSlice(rt: Runtime, s: string)
    ensures IsSlice(Strip(rt, s), s)
  {
    TrimSlice(SpaceTest(rt), s);
  }

  lemma SliceAt(a: string, b: string, i: nat)
    requires i + |a| <= |b| && a == b[i..i + |a|]
    ensures IsSlice(a, b)
  {
    SubIsSlice(b, i, i + |a|);
  }

  predicate StartsWith(s: string, prefix: string) {
    |prefix| <= |s| && s[..|prefix|] == prefix
  }

  predicate EndsWith(s: string, suffix: string) {
    |suffix| <= |s| && s[|s| - |suffix|..] == suffix
  }

  // ---------------------------------------------------------------------------
  // Case mapping (ASCII letters only)
  // ---------------------------------------------------------------------------

  function LowerChar(c: char): char {
    if 'A' <= c <= 'Z' then (c as int + 32) as char else c
  }

  function UpperChar(c: char): char {
    if 'a' <= c <= 'z' then (c as int - 32) as char else c
  }

  /** Python's `s.lower()` on ASCII letters. */
  function Lower(s: string): string {
    seq(|s|, i requires 0 <= i < |s| => LowerChar(s[i]))
  }

  /** JavaScript's `s.toUpperCase()` on ASCII letters. */
  function Upper(s: string): string {
    seq(|s|, i requires 0 <= i < |s| => UpperChar(s[i]))
  }

  /** Python's `s.replace(a, b)` for one-character `a` and `b`. */
  function ReplaceChar(s: string, a: char, b: char): string {
    seq(|s|, i requires 0 <= i < |s| => if s[i] == a then b else s[i])
  }

  // ---------------------------------------------------------------------------
  // Searching, splitting and joining
  // ---------------------------------------------------------------------------

  predicate OccursAt(s: string, pat: string, i: nat) {
    i + |pat| <= |s| && s[i..i + |pat|] == pat
  }

  /** `pat` occurs nowhere in `s`. */
  predicate Free(s: string, pat: string) {
    forall i :: 0 <= i <= |s| ==> !OccursAt(s, pat, i)
  }

  /** The first occurrence of `pat` in `s` at or after position `i`. */
  function FindFrom(s: string, pat: string, i: nat): (r: Option<nat>)
    requires i <= |s|
    ensures r.Some? ==> i <= r.value && OccursAt(s, pat, r.value)
    ensures r.Some? ==> forall j :: i <= j < r.value ==> !OccursAt(s, pat, j)
    ensures r.None? ==> forall j: nat :: i <= j ==> !OccursAt(s, pat, j)
    decreases |s| - i
  {
    if i + |pat| > |s| then None
    else if s[i..i + |pat|] == pat then Some(i)
    else FindFrom(s, pat, i + 1)
  }

  function Find(s: string, pat: string): Option<nat> {
    FindFrom(s, pat, 0)
  }

  /** Python's `sep.join(xs)` and JavaScript's `xs.join(sep)` on strings. */
  function Join(xs: seq<string>, sep: string): string {
    if |xs| == 0 then ""
    else if |xs| == 1 then xs[0]
    else xs[0] + sep + Join(xs[1..], sep)
  }

  lemma PrefixFree(s: string, pat: string, i: nat)
    requires |pat| > 0 && i <= |s|
    requires forall j :: 0 <= j < i ==> !OccursAt(s, pat, j)
    ensures Free(s[..i], pat)
  {
    forall j: nat | OccursAt(s[..i], pat, j)
      ensures false
    {
      assert s[..i][j..j + |pat|] == s[j..j + |pat|];
      assert OccursAt(s, pat, j);
    }
  }

  lemma SuffixFree(s: string, pat: string, i: nat)
    requires i <= |s|
    requires forall j: nat :: i <= j ==> !OccursAt(s, pat, j)
    ensures Free(s[i..], pat)
  {
    forall j: nat | OccursAt(s[i..], pat, j)
      ensures false
    {
      assert s[i..][j..j + |pat|] == s[i + j..i + j + |pat|];
      assert OccursAt(s, pat, i + j);
    }
  }

  /**
   * Python's `s.split(sep)` and JavaScript's `s.split(sep)` for a non-empty
   * string separator: the pieces between non-overlapping occurrences found
   * left to right. Joining the pieces back restores `s`, and no piece holds `sep`.
   */
  function Split(s: string, sep: string): (r: seq<string>)
    requires |sep| > 0
    ensures |r| >= 1
    ensures Join(r, sep) == s
    ensures forall k :: 0 <= k < |r| ==> Free(r[k], sep)
    decreases |s|
  {
    match Find(s, sep)
    case None =>
      SuffixFree(s, sep, 0);
      [s]
    case Some(i) =>
      var rest := Split(s[i + |sep|..], sep);
      SplitCons(s, sep, i, rest);
      [s[..i]] + rest
  }

  /** The piece before the first separator, put in front of the split of the remainder. */
  lemma SplitCons(s: string, sep: string, i: nat, rest: seq<string>)
    requires |sep| > 0 && Find(s, sep) == Some(i) && |rest| >= 1
    requires Join(rest, sep) == s[i + |sep|..]
    requires forall k :: 0 <= k < |rest| ==> Free(rest[k], sep)
    ensures Join([s[..i]] + rest, sep) == s
    ensures forall k :: 0 <= k < |[s[..i]] + rest| ==> Free(([s[..i]] + rest)[k], sep)
  {
    PrefixFree(s, sep, i);
    var r := [s[..i]] + rest;
    assert r[1..] == rest;
    assert OccursAt(s, sep, i);
    ThreeParts(s, i, i + |sep|);
    forall k | 0 <= k < |r|
      ensures Free(r[k], sep)
    {
      if k > 0 {
        assert r[k] == rest[k - 1];
      }
    }
  }

  lemma ThreeParts(s: string, i: nat, j: nat)
    requires i <= j <= |s|
    ensures s[..i] + s[i..j] + s[j..] == s
  {
    assert s[..j] == s[..i] + s[i..j];
    assert s == s[..j] + s[j..];
  }

  lemma SingleCharOccurs(s: string, c: char, i: nat)
    ensures OccursAt(s, [c], i) <==> i < |s| && s[i] == c
  {
    if i < |s| && s[i] == c {
      assert s[i..i + 1] == [c];
    }
  }

  lemma FreeOfChar(s: string, c: char)
    requires c !in s
    ensures Free(s, [c])
  {
    forall i: nat
      ensures !OccursAt(s, [c], i)
    {
      SingleCharOccurs(s, c, i);
    }
  }

  lemma FindAfterFreePrefix(x: string, c: char, y: string)
    requires c !in x
    ensures Find(x + [c] + y, [c]) == Some(|x|)
  {
    var s := x + [c] + y;
    SingleCharOccurs(s, c, |x|);
    forall j | 0 <= j < |x|
      ensures !OccursAt(s, [c], j)
    {
      SingleCharOccurs(s, c, j);
    }
  }

  /**
   * Splitting a join on a one-character separator gives the parts back,
   * provided no part holds the separator.
   */
  lemma {:induction false} SplitJoin(xs: seq<string>, c: char)
    requires |xs| >= 1
    requires forall k :: 0 <= k < |xs| ==> c !in xs[k]
    ensures Split(Join(xs, [c]), [c]) == xs
  {
    if |xs| == 1 {
      FreeOfChar(xs[0], c);
    } else {
      var rest := Join(xs[1..], [c]);
      var s := xs[0] + [c] + rest;
      FindAfterFreePrefix(xs[0], c, rest);
      assert s[..|xs[0]|] == xs[0];
      assert s[|xs[0]| + 1..] == rest;
      SplitJoin(xs[1..], c);
      assert xs == [xs[0]] + xs[1..];
    }
  }

  // ---------------------------------------------------------------------------
  // Comma-separated lists
  // ---------------------------------------------------------------------------

  /** The non-empty strings of `xs`, in order (`filter(s => s)`). */
  function NonEmpty(xs: seq<string>): (r: seq<string>)
    ensures |r| <= |xs|
    ensures forall k :: 0 <= k < |r| ==> r[k] != [] && r[k] in xs
    ensures forall k :: 0 <= k < |xs| && xs[k] != [] ==> xs[k] in r
    ensures (forall k :: 0 <= k < |xs| ==> xs[k] != []) ==> r == xs
  {
    if xs == [] then []
    else if xs[0] == [] then NonEmpty(xs[1..])
    else [xs[0]] + NonEmpty(xs[1..])
  }

  /** Filtering distributes over concatenation: each item is kept or dropped in its place. */
  lemma {:induction false} NonEmptyAppend(xs: seq<string>, ys: seq<string>)
    ensures NonEmpty(xs + ys) == NonEmpty(xs) + NonEmpty(ys)
  {
    if xs == [] {
      assert xs + ys == ys;
    } else {
      assert (xs + ys)[0] == xs[0];
      assert (xs + ys)[1..] == xs[1..] + ys;
      NonEmptyAppend(xs[1..], ys);
    }
  }

  /** One more item is appended to the result exactly when it is non-empty. */
  lemma NonEmptySnoc(xs: seq<string>, x: string)
    ensures NonEmpty(xs + [x]) == NonEmpty(xs) + (if x == [] then [] else [x])
  {
    NonEmptyAppend(xs, [x]);
    assert [x][1..] == [];
  }

  function StripEach(rt: Runtime, xs: seq<string>): seq<string> {
    seq(|xs|, i requires 0 <= i < |xs| => Strip(rt, xs[i]))
  }

  lemma StripEachAppend(rt: Runtime, xs: seq<string>, ys: seq<string>)
    ensures StripEach(rt, xs + ys) == StripEach(rt, xs) + StripEach(rt, ys)
  {
  }

  /**
   * The comma list idiom both runtimes use: split on `,`, strip every piece,
   * drop the empty ones (Python's `[t.strip() for t in s.split(',') if t.strip()]`,
   * JavaScript's `s.split(',').map(s => s.trim()).filter(s => s)`).
   */
  function CommaList(rt: Runtime, s: string): (r: seq<string>)
    ensures forall k :: 0 <= k < |r| ==> r[k] != [] && Strip(rt, r[k]) == r[k] && ',' !in r[k]
  {
    var parts := Split(s, ",");
    var stripped := StripEach(rt, parts);
    forall k | 0 <= k < |stripped|
      ensures Strip(rt, stripped[k]) == stripped[k] && ',' !in stripped[k]
    {
      StripIdempotent(rt, parts[k]);
      if ',' in parts[k] {
        var j :| 0 <= j < |parts[k]| && parts[k][j] == ',';
        SingleCharOccurs(parts[k], ',', j);
      }
      StripAvoids(rt, parts[k], ',');
    }
    NonEmpty(stripped)
  }

  /** `x` is the stripped form of one of `parts`. */
  predicate StrippedPiece(rt: Runtime, parts: seq<string>, x: string) {
    exists j :: 0 <= j < |parts| && Strip(rt, parts[j]) == x
  }

  /**
   * The comma list holds exactly the non-empty stripped pieces of the input
   * split on `,`; `CommaListAround` and `CommaListSingle` fix their order.
   */
  lemma CommaListPieces(rt: Runtime, s: string)
    ensures forall k :: 0 <= k < |CommaList(rt, s)| ==> StrippedPiece(rt, Split(s, ","), CommaList(rt, s)[k])
    ensures forall j :: 0 <= j < |Split(s, ",")| && Strip(rt, Split(s, ",")[j]) != [] ==>
      Strip(rt, Split(s, ",")[j]) in CommaList(rt, s)
  {
    var parts := Split(s, ",");
    assert CommaList(rt, s) == NonEmpty(StripEach(rt, parts));
    StrippedPieces(rt, parts);
  }

  lemma StrippedPieces(rt: Runtime, parts: seq<string>)
    ensures forall k :: 0 <= k < |NonEmpty(StripEach(rt, parts))| ==>
      StrippedPiece(rt, parts, NonEmpty(StripEach(rt, parts))[k])
    ensures forall j :: 0 <= j < |parts| && Strip(rt, parts[j]) != [] ==>
      Strip(rt, parts[j]) in NonEmpty(StripEach(rt, parts))
  {
    var stripped := StripEach(rt, parts);
    var r := NonEmpty(stripped);
    forall k | 0 <= k < |r|
      ensures StrippedPiece(rt, parts, r[k])
    {
      var j :| 0 <= j < |stripped| && stripped[j] == r[k];
      assert Strip(rt, parts[j]) == r[k];
    }
    forall j | 0 <= j < |parts| && Strip(rt, parts[j]) != []
      ensures Strip(rt, parts[j]) in r
    {
      assert stripped[j] == Strip(rt, parts[j]);
    }
  }

  /** A clean item: non-empty, already stripped, and without a comma. */
  predicate CleanItem(rt: Runtime, x: string) {
    x != [] && Strip(rt, x) == x && ',' !in x
  }

  function SpaceAfterFirst(xs: seq<string>): seq<string> {
    seq(|xs|, i requires 0 <= i < |xs| => if i == 0 then xs[i] else " " + xs[i])
  }

  lemma {:induction false} JoinCommaSpace(xs: seq<string>)
    requires |xs| >= 1
    ensures Join(xs, ", ") == Join(SpaceAfterFirst(xs), ",")
  {
    if |xs| > 1 {
      var ys := SpaceAfterFirst(xs);
      var tail := [xs[1]] + xs[2..];
      assert xs[1..] == tail;
      JoinCommaSpace(xs[1..]);
      assert SpaceAfterFirst(xs[1..])[0] == xs[1];
      if |xs| == 2 {
        assert Join(SpaceAfterFirst(xs[1..]), ",") == xs[1];
        assert ys[1..] == [" " + xs[1]];
      } else {
        var zs := SpaceAfterFirst(xs[1..]);
        assert Join(zs, ",") == xs[1] + "," + Join(zs[1..], ",");
        assert ys[1..] == [" " + xs[1]] + zs[1..];
        assert ys[1..][1..] == zs[1..];
      }
    }
  }

  /** Splitting on a one-character separator handles the text on either side of one occurrence separately. */
  lemma SplitAround(a: string, b: string, c: char)
    ensures Split(a + [c] + b, [c]) == Split(a, [c]) + Split(b, [c])
  {
    var xs := Split(a, [c]);
    var ys := Split(b, [c]);
    forall k | 0 <= k < |xs + ys|
      ensures c !in (xs + ys)[k]
    {
      FreeHasNoChar((xs + ys)[k], c);
    }
    JoinAppend(xs, ys, [c]);
    SplitJoin(xs + ys, c);
  }

  lemma {:induction false} JoinAppend(xs: seq<string>, ys: seq<string>, sep: string)
    requires |xs| >= 1 && |ys| >= 1
    ensures Join(xs + ys, sep) == Join(xs, sep) + sep + Join(ys, sep)
  {
    var zs := xs + ys;
    assert zs[0] == xs[0];
    if |xs| == 1 {
      assert zs[1..] == ys;
    } else {
      assert zs[1..] == xs[1..] + ys;
      JoinAppend(xs[1..], ys, sep);
    }
  }

  lemma FreeHasNoChar(s: string, c: char)
    requires Free(s, [c])
    ensures c !in s
  {
    if c in s {
      var i :| 0 <= i < |s| && s[i] == c;
      SingleCharOccurs(s, c, i);
    }
  }

  /** A text without the separator is a single piece. */
  lemma SplitWhole(s: string, c: char)
    requires c !in s
    ensures Split(s, [c]) == [s]
  {
    FreeOfChar(s, c);
  }

  /** A comma-free text is one item, its strip, unless the strip is empty. */
  lemma CommaListSingle(rt: Runtime, s: string)
    requires ',' !in s
    ensures CommaList(rt, s) == (if Strip(rt, s) == [] then [] else [Strip(rt, s)])
  {
    SplitWhole(s, ',');
    assert StripEach(rt, [s]) == [Strip(rt, s)];
    NonEmptySnoc([], Strip(rt, s));
    assert [] + [Strip(rt, s)] == [Strip(rt, s)];
  }

  /** The items on either side of a comma are parsed separately and kept in order. */
  lemma CommaListAround(rt: Runtime, a: string, b: string)
    ensures CommaList(rt, a + "," + b) == CommaList(rt, a) + CommaList(rt, b)
  {
    SplitAround(a, b, ',');
    var xs := Split(a, ",");
    var ys := Split(b, ",");
    StripEachAppend(rt, xs, ys);
    NonEmptyAppend(StripEach(rt, xs), StripEach(rt, ys));
  }

  lemma SpacedFreeOfComma(items: seq<string>)
    requires forall k :: 0 <= k < |items| ==> ',' !in items[k]
    ensures forall k :: 0 <= k < |SpaceAfterFirst(items)| ==> ',' !in SpaceAfterFirst(items)[k]
  {
  }

  lemma StripEachSpaced(rt: Runtime, items: seq<string>)
    requires forall k :: 0 <= k < |items| ==> CleanItem(rt, items[k])
    ensures StripEach(rt, SpaceAfterFirst(items)) == items
  {
    var ys := SpaceAfterFirst(items);
    forall k | 0 <= k < |ys|
      ensures Strip(rt, ys[k]) == items[k]
    {
      StripSpacedAt(rt, items, k);
    }
  }

  lemma StripSpacedAt(rt: Runtime, items: seq<string>, k: nat)
    requires k < |items|
    ensures Strip(rt, SpaceAfterFirst(items)[k]) == Strip(rt, items[k])
  {
    if k > 0 {
      assert SpaceAfterFirst(items)[k] == " " + items[k];
      assert AllSpace(rt, " ");
      StripSpacePrefix(rt, " ", items[k]);
    }
  }

  /**
   * Rendering a list with `", "` (as the edit forms pre-fill comma fields) and
   * parsing it back with `CommaList` gives the same list.
   */
  lemma CommaListJoin(rt: Runtime, items: seq<string>)
    requires forall k :: 0 <= k < |items| ==> CleanItem(rt, items[k])
    ensures CommaList(rt, Join(items, ", ")) == items
  {
    if items == [] {
      CommaListEmpty(rt);
    } else {
      var ys := SpaceAfterFirst(items);
      JoinCommaSpace(items);
      SpacedFreeOfComma(items);
      SplitJoin(ys, ',');
      assert Split(Join(items, ", "), ",") == ys;
      StripEachSpaced(rt, items);
      assert NonEmpty(items) == items;
    }
  }

  lemma CommaListEmpty(rt: Runtime)
    ensures CommaList(rt, "") == []
  {
    assert Split("", ",") == [""] by {
      assert Find("", ",").None?;
    }
    assert StripEach(rt, [""]) == [""];
  }

  // ---------------------------------------------------------------------------
  // JavaScript's UTF-16 view of a string
  // ---------------------------------------------------------------------------

  /** The UTF-16 code units of one character (a surrogate pair above U+FFFF). */
  function CodeUnits(c: char): (r: seq<int>)
    ensures 1 <= |r| <= 2
    ensures forall k :: 0 <= k < |r| ==> 0 <= r[k] < 0x10000
    ensures |r| == 1 <==> c as int < 0x10000
  {
    if c as int < 0x10000 then [c as int]
    else
      var v := c as int - 0x10000;
      [0xD800 + v / 0x400, 0xDC00 + v % 0x400]
  }

  /** What `charCodeAt`, `length` and `substring` index in JavaScript. */
  function Utf16(s: string): (r: seq<int>)
    ensures |r| >= |s|
    ensures forall k :: 0 <= k < |r| ==> 0 <= r[k] < 0x10000
  {
    if s == [] then [] else CodeUnits(s[0]) + Utf16(s[1..])
  }
}
