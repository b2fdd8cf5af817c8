/** The few JavaScript string operations the pipeline relies on:
    `String.prototype.trim`, `toLowerCase`, `includes`, `startsWith` and
    `Array.prototype.join`, over strings as sequences of characters. */
module Text {

  /** The code points `trim` removes: ECMAScript's WhiteSpace (tab, vertical
      tab, form feed, space, no-break space, the byte order mark and the
      Unicode space separators) and LineTerminator (LF, CR, U+2028, U+2029). */
  predicate IsWhitespace(c: char) {
    || c == '\t' || c == '\n' || c == '\U{000B}' || c == '\U{000C}' || c == '\r'
    || c == ' ' || c == '\U{00A0}' || c == '\U{1680}'
    || ('\U{2000}' <= c <= '\U{200A}')
    || c == '\U{2028}' || c == '\U{2029}' || c == '\U{202F}' || c == '\U{205F}'
    || c == '\U{3000}' || c == '\U{FEFF}'
  }

  predicate AllWhitespace(s: string) {
    forall i :: 0 <= i < |s| ==> IsWhitespace(s[i])
  }

  /** Neither the first nor the last character is whitespace. */
  predicate IsTrimmed(s: string) {
    s == [] || (!IsWhitespace(s[0]) && !IsWhitespace(s[|s| - 1]))
  }

  /** How many whitespace characters open `s`: `trim` drops them. */
  function LeadingWhitespace(s: string): (n: nat)
    ensures n <= |s|
    ensures forall i :: 0 <= i < n ==> IsWhitespace(s[i])
    ensures n == |s| || !IsWhitespace(s[n])
    decreases |s|
  {
    if s != [] && IsWhitespace(s[0]) then 1 + LeadingWhitespace(s[1..]) else 0
  }

  /** Where `trim` stops: the end of `s[lo..hi]` once its trailing
      whitespace is dropped. */
  function TrailingStart(s: string, lo: nat, hi: nat): (e: nat)
    requires lo <= hi <= |s|
    ensures lo <= e <= hi
    ensures forall i :: e <= i < hi ==> IsWhitespace(s[i])
    ensures e == lo || !IsWhitespace(s[e - 1])
    decreases hi
  {
    if hi > lo && IsWhitespace(s[hi - 1]) then TrailingStart(s, lo, hi - 1) else hi
  }

  /** The leading whitespace is the longest whitespace prefix, so any
      whitespace prefix that ends at a non-blank (or the end) is it. */
  lemma LeadingWhitespaceIs(s: string, k: nat)
    requires k <= |s|
    requires forall i :: 0 <= i < k ==> IsWhitespace(s[i])
    requires k == |s| || !IsWhitespace(s[k])
    ensures LeadingWhitespace(s) == k
  {
  }

  /** Likewise the trailing whitespace of `s[lo..hi]` is the longest
      whitespace run that ends at `hi`. */
  lemma TrailingStartIs(s: string, lo: nat, hi: nat, k: nat)
    requires lo <= k <= hi <= |s|
    requires forall i :: k <= i < hi ==> IsWhitespace(s[i])
    requires k == lo || !IsWhitespace(s[k - 1])
    ensures TrailingStart(s, lo, hi) == k
  {
  }

  /** `s.trim()`: the slice of `s` between its leading and trailing
      whitespace. */
  function Trim(s: string): (r: string)
    ensures IsTrimmed(r)
    ensures LeadingWhitespace(s) + |r| <= |s|
    ensures r == s[LeadingWhitespace(s)..LeadingWhitespace(s) + |r|]
    ensures AllWhitespace(s[..LeadingWhitespace(s)])
    ensures AllWhitespace(s[LeadingWhitespace(s) + |r|..])
  {
    var n := LeadingWhitespace(s);
    var e := TrailingStart(s, n, |s|);
    assert n < e ==> !IsWhitespace(s[n]);
    s[n..e]
  }

  /** `trim` removes exactly the surrounding whitespace: padding a trimmed
      string with whitespace on either side and trimming gives it back. */
  lemma TrimOfPadded(before: string, t: string, after: string)
    requires AllWhitespace(before) && AllWhitespace(after) && IsTrimmed(t)
    ensures Trim(before + t + after) == t
  {
    var x := before + t + after;
    var lead, stop := |before|, |before| + |t|;
    assert forall i :: stop <= i < |x| ==> x[i] == after[i - stop];
    if t == [] {
      LeadingWhitespaceIs(x, |x|);
      TrailingStartIs(x, |x|, |x|, |x|);
    } else {
      assert x[lead] == t[0] && x[stop - 1] == t[|t| - 1];
      LeadingWhitespaceIs(x, lead);
      TrailingStartIs(x, lead, |x|, stop);
      assert x[lead..stop] == t;
    }
  }

  /** Trimming twice is trimming once. */
  lemma TrimIdempotent(s: string)
    ensures Trim(Trim(s)) == Trim(s)
  {
    var t := Trim(s);
    TrimOfPadded([], t, []);
    assert [] + t + [] == t;
  }

  /** `toLowerCase` on one character, for the ASCII letters. */
  function LowerChar(c: char): char {
    if 'A' <= c <= 'Z' then (c as int + 32) as char else c
  }

  /** `s.toLowerCase()`, character by character. */
  function ToLower(s: string): (r: string)
    ensures |r| == |s|
    ensures forall i :: 0 <= i < |s| ==> r[i] == LowerChar(s[i])
  {
    seq(|s|, i requires 0 <= i < |s| => LowerChar(s[i]))
  }

  /** `s.startsWith(p)`. */
  predicate StartsWith(s: string, p: string) {
    |p| <= |s| && s[..|p|] == p
  }

  /** `s.includes(p)`: `p` occurs in `s` at some position. */
  predicate Contains(s: string, p: string)
    decreases |s|
  {
    StartsWith(s, p) || (s != [] && Contains(s[1..], p))
  }

  /** `p` occurs in `s` at position `i`. */
  predicate OccursAt(s: string, p: string, i: nat) {
    i + |p| <= |s| && s[i..i + |p|] == p
  }

  /** An occurrence at a known position makes `includes` true. */
  lemma {:induction false} ContainsAt(s: string, p: string, i: nat)
    requires OccursAt(s, p, i)
    ensures Contains(s, p)
  {
    if i > 0 {
      assert s[1..][i - 1..i - 1 + |p|] == s[i..i + |p|];
      ContainsAt(s[1..], p, i - 1);
    }
  }

  /** `includes` is true only when the needle occurs at some position. */
  lemma {:induction false} ContainsHasOccurrence(s: string, p: string)
    requires Contains(s, p)
    ensures exists i: nat :: OccursAt(s, p, i)
    decreases |s|
  {
    if StartsWith(s, p) {
      assert OccursAt(s, p, 0);
    } else {
      ContainsHasOccurrence(s[1..], p);
      var j: nat :| OccursAt(s[1..], p, j);
      assert s[j + 1..j + 1 + |p|] == s[1..][j..j + |p|];
      assert OccursAt(s, p, j + 1);
    }
  }

  /** A string that lacks the first character of `p` does not contain `p`. */
  lemma {:induction false} ContainsNeedsFirstChar(s: string, p: string)
    requires p != [] && p[0] !in s
    ensures !Contains(s, p)
  {
    if s != [] {
      assert p[0] !in s[1..];
      ContainsNeedsFirstChar(s[1..], p);
    }
  }

  /** `parts.join(sep)`. */
  function Join(parts: seq<string>, sep: string): string {
    if |parts| == 0 then ""
    else if |parts| == 1 then parts[0]
    else parts[0] + sep + Join(parts[1..], sep)
  }

  /** Joining one more part adds the separator and then that part. */
  lemma {:induction false} JoinAppend(parts: seq<string>, p: string, sep: string)
    requires parts != []
    ensures Join(parts + [p], sep) == Join(parts, sep) + sep + p
  {
    if |parts| > 1 {
      assert (parts + [p])[1..] == parts[1..] + [p];
      JoinAppend(parts[1..], p, sep);
    } else {
      assert (parts + [p])[1..] == [p];
    }
  }
}
