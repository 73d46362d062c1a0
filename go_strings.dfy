/**
 * The parts of Go's `strings` package that the request parser relies on:
 * `TrimSpace`, `Split` with a one-character separator, `SplitN(s, sep, 2)`
 * and `HasPrefix`. A Go string is modelled as the sequence of its decoded
 * characters.
 */
module GoStrings {

  /** Go's `unicode.IsSpace`: the ASCII white space, NEL, NBSP and the
      other characters with the Unicode White_Space property (U+2000 to
      U+200A written out one by one). */
  predicate IsSpace(c: char) {
    || c == ' ' || c == '\t' || c == '\n' || c == '\U{000B}' || c == '\U{000C}' || c == '\r'
    || c == '\U{0085}' || c == '\U{00A0}' || c == '\U{1680}'
    || c == '\U{2000}' || c == '\U{2001}' || c == '\U{2002}' || c == '\U{2003}' || c == '\U{2004}'
    || c == '\U{2005}' || c == '\U{2006}' || c == '\U{2007}' || c == '\U{2008}' || c == '\U{2009}'
    || c == '\U{200A}'
    || c == '\U{2028}' || c == '\U{2029}' || c == '\U{202F}' || c == '\U{205F}' || c == '\U{3000}'
  }

  predicate AllSpace(s: string) {
    forall i {:trigger IsSpace(s[i])} | 0 <= i < |s| :: IsSpace(s[i])
  }

  /** How many white-space characters `s` starts with. */
  function LeadingSpace(s: string): (n: nat)
    ensures n <= |s|
    decreases |s|
  {
    if |s| > 0 && IsSpace(s[0]) then 1 + LeadingSpace(s[1..]) else 0
  }

  /** `LeadingSpace` counts white space up to the first other character. */
  lemma {:induction false} LeadingSpaceSpan(s: string)
    ensures var n := LeadingSpace(s);
      && (forall k {:trigger IsSpace(s[k])} | 0 <= k < n :: IsSpace(s[k]))
      && (n < |s| ==> !IsSpace(s[n]))
    decreases |s|
  {
    if |s| > 0 && IsSpace(s[0]) {
      LeadingSpaceSpan(s[1..]);
      forall k | 1 <= k < LeadingSpace(s) ensures IsSpace(s[k]) {
        assert s[k] == s[1..][k - 1];
      }
      if LeadingSpace(s) < |s| {
        assert s[LeadingSpace(s)] == s[1..][LeadingSpace(s[1..])];
      }
    }
  }

  /** Where the content of `s[lo..hi]` ends once its trailing white space is cut off. */
  function ContentEnd(s: string, lo: nat, hi: nat): (m: nat)
    requires lo <= hi <= |s|
    ensures lo <= m <= hi
    decreases hi
  {
    if lo < hi && IsSpace(s[hi - 1]) then ContentEnd(s, lo, hi - 1) else hi
  }

  /** `ContentEnd` cuts off white space back to the last other character. */
  lemma {:induction false} ContentEndSpan(s: string, lo: nat, hi: nat)
    requires lo <= hi <= |s|
    ensures var m := ContentEnd(s, lo, hi);
      && (forall k {:trigger IsSpace(s[k])} | m <= k < hi :: IsSpace(s[k]))
      && (lo < m ==> !IsSpace(s[m - 1]))
    decreases hi
  {
    if lo < hi && IsSpace(s[hi - 1]) {
      ContentEndSpan(s, lo, hi - 1);
    }
  }

  /** Go's `strings.TrimSpace`: the slice of `s` left once the white space
      at both ends is cut off. */
  function TrimSpace(s: string): (r: string)
    ensures |r| <= |s|
    ensures r == [] || (!IsSpace(r[0]) && !IsSpace(r[|r| - 1]))
  {
    var i := LeadingSpace(s);
    var j := ContentEnd(s, i, |s|);
    LeadingSpaceSpan(s);
    ContentEndSpan(s, i, |s|);
    s[i..j]
  }

  /** Trimming cuts off a run of white space at each end and nothing else. */
  lemma TrimSpaceSlice(s: string)
    ensures var i := LeadingSpace(s);
      && TrimSpace(s) == s[i..ContentEnd(s, i, |s|)]
      && AllSpace(s[..i]) && AllSpace(s[ContentEnd(s, i, |s|)..])
  {
    var i := LeadingSpace(s);
    var j := ContentEnd(s, i, |s|);
    LeadingSpaceSpan(s);
    ContentEndSpan(s, i, |s|);
    SpaceRun(s, 0, i);
    SpaceRun(s, j, |s|);
    assert s[0..i] == s[..i] && s[j..|s|] == s[j..];
  }

  /** A run of white space in `s` is an all-white-space slice. */
  lemma SpaceRun(s: string, lo: nat, hi: nat)
    requires lo <= hi <= |s|
    requires forall k {:trigger IsSpace(s[k])} | lo <= k < hi :: IsSpace(s[k])
    ensures AllSpace(s[lo..hi])
  {
    forall k | 0 <= k < hi - lo ensures IsSpace(s[lo..hi][k]) {
      assert s[lo..hi][k] == s[lo + k];
    }
  }

  /** Trimming removes only white space, so it keeps every other character. */
  lemma TrimSpaceKeeps(s: string, c: char)
    requires !IsSpace(c)
    ensures c in TrimSpace(s) <==> c in s
  {
    var i := LeadingSpace(s);
    LeadingSpaceSpan(s);
    ContentEndSpan(s, i, |s|);
    if c in s {
      var p :| 0 <= p < |s| && s[p] == c;
      assert TrimSpace(s)[p - i] == c;
    }
  }

  /** The index of the first `c` in `s`. */
  function IndexOf(s: string, c: char): (i: nat)
    requires c in s
    ensures i < |s| && s[i] == c && c !in s[..i]
  {
    if s[0] == c then 0 else
      assert c in s[1..] by { var k :| 0 <= k < |s| && s[k] == c; assert s[1..][k - 1] == c; }
      var i := 1 + IndexOf(s[1..], c);
      assert s[..i] == [s[0]] + s[1..][..i - 1];
      i
  }

  /** How many times `c` occurs in `s` (Go's `strings.Count` for a one-character separator). */
  function Count(s: string, c: char): nat {
    if s == [] then 0 else (if s[0] == c then 1 else 0) + Count(s[1..], c)
  }

  /** The inverse of `Split`: the parts put back together with `c` between each two. */
  function Join(parts: seq<string>, c: char): string
    requires |parts| > 0
  {
    if |parts| == 1 then parts[0] else parts[0] + [c] + Join(parts[1..], c)
  }

  /** Go's `strings.Split(s, string(c))`: the maximal runs of `s` between
      occurrences of `c`, so one part more than there are separators. */
  function Split(s: string, c: char): (parts: seq<string>)
    ensures |parts| == Count(s, c) + 1
    ensures Join(parts, c) == s
    ensures forall i | 0 <= i < |parts| :: c !in parts[i]
    decreases |s|
  {
    if s == [] then [[]]
    else
      var rest := Split(s[1..], c);
      if s[0] == c then
        assert s == [] + [c] + Join(rest, c);
        [[]] + rest
      else
        var parts := [[s[0]] + rest[0]] + rest[1..];
        assert parts[1..] == rest[1..];
        assert forall i | 1 <= i < |parts| :: parts[i] == rest[i];
        assert |rest| > 1 ==> Join(rest, c) == rest[0] + [c] + Join(rest[1..], c);
        parts
  }

  /** Go's `strings.SplitN(s, string(c), 2)`: split at the first `c` only,
      or the whole of `s` as the single part when `c` does not occur. */
  function SplitFirst(s: string, c: char): (parts: seq<string>)
    ensures |parts| == 2 <==> c in s
    ensures |parts| == 1 <==> c !in s
    ensures |parts| == 1 ==> parts[0] == s
    ensures |parts| == 2 ==> s == parts[0] + [c] + parts[1] && c !in parts[0]
  {
    if c in s then
      var i := IndexOf(s, c);
      assert s == s[..i] + [c] + s[i + 1..];
      [s[..i], s[i + 1..]]
    else [s]
  }

  /** Within ASCII, the white space is the blank and the controls TAB to CR;
      the colon that separates a header's key from its value is not among them. */
  lemma AsciiSpace(c: char)
    ensures c <= '\U{007F}' ==> (IsSpace(c) <==> c == ' ' || '\t' <= c <= '\r')
    ensures !IsSpace(':')
  {
  }

  /** Go's `strings.HasPrefix`. */
  predicate HasPrefix(s: string, prefix: string): (b: bool)
    ensures b <==> |prefix| <= |s| && forall i | 0 <= i < |prefix| :: s[i] == prefix[i]
  {
    |prefix| <= |s| && s[..|prefix|] == prefix
  }

  /** Trimming leaves nothing exactly when the string is all white space. */
  lemma TrimSpaceEmpty(s: string)
    ensures TrimSpace(s) == [] <==> AllSpace(s)
  {
    var i := LeadingSpace(s);
    LeadingSpaceSpan(s);
    if i < |s| {
      assert !IsSpace(s[i]);
      ContentEndSpan(s, i, |s|);
      assert ContentEnd(s, i, |s|) > i;
    }
  }

  /** White space around a string with non-blank ends is exactly what trimming removes. */
  lemma {:induction false} TrimSpaceAround(pre: string, x: string, post: string)
    requires AllSpace(pre) && AllSpace(post)
    requires x == [] || (!IsSpace(x[0]) && !IsSpace(x[|x| - 1]))
    ensures TrimSpace(pre + x + post) == x
  {
    var s := pre + x + post;
    var i := LeadingSpace(s);
    if x == [] {
      assert AllSpace(s) by {
        forall k | 0 <= k < |s| ensures IsSpace(s[k]) {
          if k < |pre| { assert s[k] == pre[k]; } else { assert s[k] == post[k - |pre|]; }
        }
      }
      TrimSpaceEmpty(s);
    } else {
      assert s[|pre|] == x[0];
      assert forall k | 0 <= k < |pre| :: s[k] == pre[k];
      LeadingSpaceSpan(s);
      assert i == |pre|;
      var j := ContentEnd(s, i, |s|);
      ContentEndSpan(s, i, |s|);
      assert s[|pre| + |x| - 1] == x[|x| - 1];
      assert forall k | |pre| + |x| <= k < |s| :: s[k] == post[k - |pre| - |x|];
      assert j == |pre| + |x|;
      assert s[i..j] == x;
    }
  }

  /** A separator-free run followed by the separator is split off as the first part. */
  lemma {:induction false} SplitAfter(a: string, c: char, t: string)
    requires c !in a
    ensures Split(a + [c] + t, c) == [a] + Split(t, c)
    decreases |a|
  {
    if a == [] {
      assert a + [c] + t == [c] + t;
      assert ([c] + t)[1..] == t;
    } else {
      assert (a + [c] + t)[1..] == a[1..] + [c] + t;
      SplitAfter(a[1..], c, t);
      assert [a[0]] + a[1..] == a;
    }
  }

  /** A string without the separator is a single part. */
  lemma {:induction false} SplitWhole(s: string, c: char)
    requires c !in s
    ensures Split(s, c) == [s]
    decreases |s|
  {
    if s != [] {
      SplitWhole(s[1..], c);
      assert [s[0]] + s[1..] == s;
    }
  }

  /** Splitting undoes joining, for parts free of the separator. */
  lemma {:induction false} SplitJoin(parts: seq<string>, c: char)
    requires |parts| > 0
    requires forall i | 0 <= i < |parts| :: c !in parts[i]
    ensures Split(Join(parts, c), c) == parts
    decreases |parts|
  {
    if |parts| == 1 {
      SplitWhole(parts[0], c);
    } else {
      SplitJoin(parts[1..], c);
      SplitAfter(parts[0], c, Join(parts[1..], c));
      assert [parts[0]] + parts[1..] == parts;
    }
  }
}
