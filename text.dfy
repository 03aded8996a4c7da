/** The three Python `str` operations the command loop applies to an input
    line: `strip()`, `split(' ', 1)` and `lower()`. */
module Text {

  /** Python's `str.isspace()` for one character: ASCII whitespace, the four
      information separators, NEL, NBSP and the Unicode space separators. */
  predicate IsSpace(c: char) {
    c == ' ' || '\t' <= c <= '\r' || '\U{1C}' <= c <= '\U{1F}' ||
    c == '\U{85}' || c == '\U{A0}' || c == '\U{1680}' ||
    '\U{2000}' <= c <= '\U{200A}' || c == '\U{2028}' || c == '\U{2029}' ||
    c == '\U{202F}' || c == '\U{205F}' || c == '\U{3000}'
  }

  predicate AllSpace(s: string) {
    forall i :: 0 <= i < |s| ==> IsSpace(s[i])
  }

  /** The first index at or after `i` whose character is not whitespace,
      or `|s|` when there is none. */
  function SkipSpace(s: string, i: nat): (j: nat)
    requires i <= |s|
    ensures i <= j <= |s|
    ensures forall k :: i <= k < j ==> IsSpace(s[k])
    ensures j < |s| ==> !IsSpace(s[j])
    decreases |s| - i
  {
    if i < |s| && IsSpace(s[i]) then SkipSpace(s, i + 1) else i
  }

  /** The end of `s[lo..j]` once trailing whitespace is dropped. */
  function SkipSpaceBack(s: string, lo: nat, j: nat): (h: nat)
    requires lo <= j <= |s|
    ensures lo <= h <= j
    ensures forall k :: h <= k < j ==> IsSpace(s[k])
    ensures h > lo ==> !IsSpace(s[h - 1])
    decreases j
  {
    if j > lo && IsSpace(s[j - 1]) then SkipSpaceBack(s, lo, j - 1) else j
  }

  /** `s.strip()`: `s` without its leading and trailing whitespace. The result
      is empty exactly when `s` is all whitespace, and otherwise starts and
      ends with a character that is not. */
  function Strip(s: string): (r: string)
    ensures r == [] <==> AllSpace(s)
    ensures r != [] ==> !IsSpace(r[0]) && !IsSpace(r[|r| - 1])
  {
    var lo := SkipSpace(s, 0);
    var hi := SkipSpaceBack(s, lo, |s|);
    assert AllSpace(s) ==> lo == |s|;
    s[lo..hi]
  }

  /** Python's `s.split(sep, 1)` for a one-character separator: the whole of
      `s` when `sep` does not occur, otherwise the text before its first
      occurrence and everything after it. */
  function SplitOnce(s: string, sep: char): (parts: seq<string>)
    ensures |parts| == 1 || |parts| == 2
    ensures |parts| == 1 <==> sep !in s
    ensures |parts| == 1 ==> parts[0] == s
    ensures |parts| == 2 ==> s == parts[0] + [sep] + parts[1] && sep !in parts[0]
  {
    if s == [] then [s]
    else if s[0] == sep then [[], s[1..]]
    else
      var rest := SplitOnce(s[1..], sep);
      assert s == [s[0]] + s[1..];
      [[s[0]] + rest[0]] + rest[1..]
  }

  /** Python's `c.lower()` restricted to ASCII letters. */
  function LowerChar(c: char): char {
    if 'A' <= c <= 'Z' then (c as int + 32) as char else c
  }

  /** `s.lower()` on ASCII letters; every other character is kept. */
  function Lower(s: string): (r: string)
    ensures |r| == |s|
    ensures forall i :: 0 <= i < |s| ==> r[i] == LowerChar(s[i])
  {
    if s == [] then [] else [LowerChar(s[0])] + Lower(s[1..])
  }

  /** `strip()` is determined by its borders: cutting all-whitespace
      borders off `s` so that what remains is empty or starts and ends with
      a non-whitespace character gives `Strip(s)`. */
  lemma StripUnique(s: string, lo: nat, hi: nat)
    requires lo <= hi <= |s|
    requires forall k :: 0 <= k < lo ==> IsSpace(s[k])
    requires forall k :: hi <= k < |s| ==> IsSpace(s[k])
    requires lo < hi ==> !IsSpace(s[lo]) && !IsSpace(s[hi - 1])
    ensures Strip(s) == s[lo..hi]
  {
    var lo' := SkipSpace(s, 0);
    if lo < hi {
      assert lo' == lo;
      var hi' := SkipSpaceBack(s, lo', |s|);
      assert hi' == hi;
    } else {
      assert AllSpace(s);
    }
  }

  /** `strip()` cuts a slice out of `s` whose borders are all whitespace. */
  lemma StripIsSlice(s: string)
    ensures var r := Strip(s);
      exists i :: 0 <= i <= |s| - |r| && s[i..i + |r|] == r &&
                  AllSpace(s[..i]) && AllSpace(s[i + |r|..])
  {
    var lo := SkipSpace(s, 0);
    var hi := SkipSpaceBack(s, lo, |s|);
    assert Strip(s) == s[lo..hi];
    assert AllSpace(s[..lo]);
    assert AllSpace(s[hi..]);
  }

  /** A string with no whitespace at either end is its own `strip()`. */
  lemma StripKeepsTrimmed(s: string)
    requires s != [] && !IsSpace(s[0]) && !IsSpace(s[|s| - 1])
    ensures Strip(s) == s
  {
    StripUnique(s, 0, |s|);
  }

  /** `strip()` is idempotent. */
  lemma StripIdempotent(s: string)
    ensures Strip(Strip(s)) == Strip(s)
  {
    var r := Strip(s);
    if r != [] {
      StripKeepsTrimmed(r);
    }
  }

  /** Whitespace around a string does not survive `strip()`. */
  lemma StripIgnoresSurroundingSpace(pre: string, s: string, post: string)
    requires AllSpace(pre) && AllSpace(post)
    ensures Strip(pre + s + post) == Strip(s)
  {
    StripIgnoresLeadingSpace(pre, s + post);
    assert pre + s + post == pre + (s + post);
    StripIgnoresTrailingSpace(s, post);
  }

  lemma StripIgnoresLeadingSpace(pre: string, s: string)
    requires AllSpace(pre)
    ensures Strip(pre + s) == Strip(s)
  {
    var lo := SkipSpace(s, 0);
    var hi := SkipSpaceBack(s, lo, |s|);
    BordersAfterPrefix(pre, s, lo, hi);
    StripUnique(pre + s, |pre| + lo, |pre| + hi);
    SliceAfterPrefix(pre, s, lo, hi);
  }

  lemma SliceAfterPrefix(pre: string, s: string, lo: nat, hi: nat)
    requires lo <= hi <= |s|
    ensures (pre + s)[|pre| + lo..|pre| + hi] == s[lo..hi]
  {
    assert (pre + s)[|pre|..] == s;
  }

  lemma StripIgnoresTrailingSpace(s: string, post: string)
    requires AllSpace(post)
    ensures Strip(s + post) == Strip(s)
  {
    var lo := SkipSpace(s, 0);
    var hi := SkipSpaceBack(s, lo, |s|);
    BordersBeforeSuffix(s, post, lo, hi);
    StripUnique(s + post, lo, hi);
    assert (s + post)[..|s|] == s;
  }

  /** Whitespace borders of `s` stay whitespace borders behind a whitespace prefix. */
  lemma BordersAfterPrefix(pre: string, s: string, lo: nat, hi: nat)
    requires AllSpace(pre)
    requires lo <= hi <= |s|
    requires forall k :: 0 <= k < lo ==> IsSpace(s[k])
    requires forall k :: hi <= k < |s| ==> IsSpace(s[k])
    requires lo < hi ==> !IsSpace(s[lo]) && !IsSpace(s[hi - 1])
    ensures var x, n := pre + s, |pre|;
      (forall k :: 0 <= k < n + lo ==> IsSpace(x[k])) &&
      (forall k :: n + hi <= k < |x| ==> IsSpace(x[k])) &&
      (lo < hi ==> !IsSpace(x[n + lo]) && !IsSpace(x[n + hi - 1]))
  {
    var x, n := pre + s, |pre|;
    assert forall k :: 0 <= k < |s| ==> x[n + k] == s[k];
    forall k | 0 <= k < n + lo ensures IsSpace(x[k]) {
      if k < n { assert x[k] == pre[k]; } else { assert x[n + (k - n)] == s[k - n]; }
    }
    forall k | n + hi <= k < |x| ensures IsSpace(x[k]) {
      assert x[n + (k - n)] == s[k - n];
    }
  }

  /** Whitespace borders of `s` stay whitespace borders before a whitespace suffix. */
  lemma BordersBeforeSuffix(s: string, post: string, lo: nat, hi: nat)
    requires AllSpace(post)
    requires lo <= hi <= |s|
    requires forall k :: 0 <= k < lo ==> IsSpace(s[k])
    requires forall k :: hi <= k < |s| ==> IsSpace(s[k])
    requires lo < hi ==> !IsSpace(s[lo]) && !IsSpace(s[hi - 1])
    ensures var x := s + post;
      (forall k :: 0 <= k < lo ==> IsSpace(x[k])) &&
      (forall k :: hi <= k < |x| ==> IsSpace(x[k])) &&
      (lo < hi ==> !IsSpace(x[lo]) && !IsSpace(x[hi - 1]))
  {
    var x := s + post;
    forall k | hi <= k < |x| ensures IsSpace(x[k]) {
      if k >= |s| { assert x[k] == post[k - |s|]; }
    }
  }

  /** Splitting `w + [sep] + a` at the first `sep` gives back `w` and `a`
      when `w` holds no `sep`. */
  lemma {:induction false} SplitOnceAtFirst(w: string, sep: char, a: string)
    requires sep !in w
    ensures SplitOnce(w + [sep] + a, sep) == [w, a]
  {
    var s := w + [sep] + a;
    if w == [] {
      assert s[1..] == a;
    } else {
      assert s[1..] == w[1..] + [sep] + a;
      SplitOnceAtFirst(w[1..], sep, a);
      assert [w[0]] + w[1..] == w;
    }
  }
}
