/**
 * The parts of Go's `strings` package that the handlers rely on, over
 * strings modelled as sequences of Unicode code points.
 */
module GoStrings {

  /** Go's `unicode.IsSpace`: the Latin-1 spaces plus the Unicode White_Space set. */
  predicate IsSpace(c: char) {
    c == ' ' || c == '\t' || c == '\n' || c == '\r' || c == '\U{000B}' || c == '\U{000C}'
    || c == '\U{0085}' || c == '\U{00A0}' || c == '\U{1680}'
    || ('\U{2000}' <= c <= '\U{200A}')
    || c == '\U{2028}' || c == '\U{2029}' || c == '\U{202F}' || c == '\U{205F}' || c == '\U{3000}'
  }

  /** True when the string is empty after trimming, i.e. it holds only spaces. */
  predicate IsBlank(s: string) {
    forall k :: 0 <= k < |s| ==> IsSpace(s[k])
  }

  /** Where the run of spaces starting at `i` ends: `strings.TrimSpace`'s forward scan. */
  function SpaceEnd(s: string, i: nat): (j: nat)
    requires i <= |s|
    ensures i <= j <= |s|
    ensures forall k :: i <= k < j ==> IsSpace(s[k])
    ensures j == |s| || !IsSpace(s[j])
    decreases |s| - i
  {
    if i < |s| && IsSpace(s[i]) then SpaceEnd(s, i + 1) else i
  }

  /** Where the run of spaces ending at `j` begins, not going below `lo`: the backward scan. */
  function SpaceStart(s: string, lo: nat, j: nat): (e: nat)
    requires lo <= j <= |s|
    ensures lo <= e <= j
    ensures forall k :: e <= k < j ==> IsSpace(s[k])
    ensures e == lo || !IsSpace(s[e - 1])
    decreases j - lo
  {
    if lo < j && IsSpace(s[j - 1]) then SpaceStart(s, lo, j - 1) else j
  }

  /** Go's `strings.TrimSpace`: the text between the leading and the trailing spaces. */
  function TrimSpace(s: string): string
  {
    var start := SpaceEnd(s, 0);
    s[start..SpaceStart(s, start, |s|)]
  }

  /** Trimming leaves nothing exactly when the string is blank. */
  lemma TrimSpaceEmptyIffBlank(s: string)
    ensures TrimSpace(s) == [] <==> IsBlank(s)
  {
    var start := SpaceEnd(s, 0);
    var stop := SpaceStart(s, start, |s|);
    if IsBlank(s) {
      assert start == |s|;
    }
  }

  /**
   * `TrimSpace` keeps the slice of `s` that starts where the leading spaces
   * end, with only spaces before and after it.
   */
  lemma TrimSpaceSlice(s: string)
    ensures var i := SpaceEnd(s, 0); var r := TrimSpace(s);
      && i + |r| <= |s| && s[i..i + |r|] == r
      && IsBlank(s[..i]) && IsBlank(s[i + |r|..])
  {
    var i := SpaceEnd(s, 0);
    var stop := SpaceStart(s, i, |s|);
    assert IsBlank(s[..i]) by {
      forall k | 0 <= k < i
        ensures IsSpace(s[..i][k])
      {
        assert s[..i][k] == s[k];
      }
    }
    assert IsBlank(s[stop..]) by {
      forall k | 0 <= k < |s| - stop
        ensures IsSpace(s[stop..][k])
      {
        assert s[stop..][k] == s[stop + k];
      }
    }
  }

  /** The trimmed string neither starts nor ends with a space. */
  lemma TrimSpaceEnds(s: string)
    ensures var r := TrimSpace(s); r == [] || (!IsSpace(r[0]) && !IsSpace(r[|r| - 1]))
  {
    var start := SpaceEnd(s, 0);
    var stop := SpaceStart(s, start, |s|);
    var r := TrimSpace(s);
    if r != [] {
      assert r[0] == s[start];
      assert r[|r| - 1] == s[stop - 1];
    }
  }

  /** A string that neither starts nor ends with a space is its own trim. */
  lemma TrimmedIsFixed(s: string)
    requires s == [] || (!IsSpace(s[0]) && !IsSpace(s[|s| - 1]))
    ensures TrimSpace(s) == s
  {
    assert SpaceEnd(s, 0) == 0;
    assert SpaceStart(s, 0, |s|) == |s|;
    assert s[0..|s|] == s;
  }

  /** Trimming twice is trimming once. */
  lemma TrimSpaceIdempotent(s: string)
    ensures TrimSpace(TrimSpace(s)) == TrimSpace(s)
  {
    TrimSpaceEnds(s);
    TrimmedIsFixed(TrimSpace(s));
  }

  /** Trimming a string that starts and ends with a non-space removes exactly the spaces put around it. */
  lemma TrimSpacePadded(x: string)
    requires |x| > 0 && !IsSpace(x[0]) && !IsSpace(x[|x| - 1])
    ensures TrimSpace(" " + x + " ") == x
  {
    var padded := " " + x + " ";
    var n := |padded|;
    assert padded[1] == x[0] && padded[n - 2] == x[|x| - 1];
    assert SpaceEnd(padded, 1) == 1;
    assert SpaceEnd(padded, 0) == 1;
    assert SpaceStart(padded, 1, n - 1) == n - 1;
    assert SpaceStart(padded, 1, n) == n - 1;
    assert padded[1..n - 1] == x;
  }

  /** Go's `strings.TrimPrefix`. */
  function TrimPrefix(s: string, prefix: string): (r: string)
    ensures prefix <= s ==> prefix + r == s
    ensures !(prefix <= s) ==> r == s
  {
    if prefix <= s then s[|prefix|..] else s
  }

  /** Position of the first occurrence of `c`. */
  function IndexOf(s: string, c: char): (i: nat)
    requires c in s
    ensures i < |s| && s[i] == c && c !in s[..i]
  {
    if s[0] == c then 0 else 1 + IndexOf(s[1..], c)
  }

  /** Go's `strings.Join` with a one-character separator. */
  function Join(parts: seq<string>, sep: char): string
  {
    if |parts| == 0 then []
    else if |parts| == 1 then parts[0]
    else parts[0] + [sep] + Join(parts[1..], sep)
  }

  /** Go's `strings.Split` with a one-character separator: never empty, no part holds the separator. */
  function Split(s: string, sep: char): (parts: seq<string>)
    ensures |parts| >= 1
    ensures forall k :: 0 <= k < |parts| ==> sep !in parts[k]
    ensures Join(parts, sep) == s
    decreases |s|
  {
    if sep !in s then [s]
    else
      var i := IndexOf(s, sep);
      assert s == s[..i] + [sep] + s[i + 1..];
      [s[..i]] + Split(s[i + 1..], sep)
  }

  /** Splitting a join of separator-free parts gives the parts back. */
  lemma {:induction false} SplitJoin(parts: seq<string>, sep: char)
    requires |parts| >= 1
    requires forall k :: 0 <= k < |parts| ==> sep !in parts[k]
    ensures Split(Join(parts, sep), sep) == parts
    decreases |parts|
  {
    if |parts| > 1 {
      var tail := Join(parts[1..], sep);
      assert Join(parts, sep) == parts[0] + [sep] + tail;
      SplitCons(parts[0], tail, sep);
      SplitJoin(parts[1..], sep);
      assert parts == [parts[0]] + parts[1..];
    }
  }

  /** A separator-free head followed by the separator splits off as the first part. */
  lemma SplitCons(head: string, rest: string, sep: char)
    requires sep !in head
    ensures Split(head + [sep] + rest, sep) == [head] + Split(rest, sep)
  {
    var s := head + [sep] + rest;
    assert s[|head|] == sep;
    assert s[..|head|] == head;
    assert s[|head| + 1..] == rest;
    assert IndexOf(s, sep) == |head| by { IndexOfFirst(s, sep, |head|); }
  }

  /** Two separator-free parts, each followed by the separator, split off as the first two parts. */
  lemma SplitTwo(first: string, second: string, rest: string, sep: char)
    requires sep !in first && sep !in second
    ensures Split(first + [sep] + (second + [sep] + rest), sep) == [first, second] + Split(rest, sep)
  {
    SplitCons(second, rest, sep);
    SplitCons(first, second + [sep] + rest, sep);
  }

  /** The first occurrence is at `i` when `c` is at `i` and nowhere before it. */
  lemma IndexOfFirst(s: string, c: char, i: nat)
    requires i < |s| && s[i] == c && c !in s[..i]
    ensures IndexOf(s, c) == i
  {
  }

  /** Go's `strings.SplitN(s, sep, 2)`: cut at the first separator, if any. */
  function SplitFirst(s: string, sep: char): (parts: seq<string>)
    ensures sep !in s ==> parts == [s]
    ensures sep in s ==> |parts| == 2 && sep !in parts[0] && parts[0] + [sep] + parts[1] == s
  {
    if sep !in s then [s]
    else
      var i := IndexOf(s, sep);
      assert s == s[..i] + [sep] + s[i + 1..];
      [s[..i], s[i + 1..]]
  }

  /** A separator-free head followed by the separator is the first of the two parts. */
  lemma SplitFirstCons(head: string, rest: string, sep: char)
    requires sep !in head
    ensures SplitFirst(head + [sep] + rest, sep) == [head, rest]
  {
    var s := head + [sep] + rest;
    assert s[|head|] == sep;
    assert s[..|head|] == head;
    assert s[|head| + 1..] == rest;
    assert IndexOf(s, sep) == |head| by { IndexOfFirst(s, sep, |head|); }
  }

  /** ASCII case mapping of one character. */
  function LowerChar(c: char): (r: char)
    ensures !('A' <= r <= 'Z')
    ensures !('A' <= c <= 'Z') ==> r == c
  {
    if 'A' <= c <= 'Z' then (c as int - 'A' as int + 'a' as int) as char else c
  }

  /** Go's `strings.ToLower`, restricted to the ASCII letters. */
  function ToLower(s: string): (r: string)
    ensures |r| == |s|
    ensures forall k :: 0 <= k < |s| ==> r[k] == LowerChar(s[k])
  {
    seq(|s|, k requires 0 <= k < |s| => LowerChar(s[k]))
  }

  /** Lower-casing leaves no upper-case ASCII letter and is idempotent. */
  lemma ToLowerIdempotent(s: string)
    ensures ToLower(ToLower(s)) == ToLower(s)
    ensures forall k :: 0 <= k < |s| ==> !('A' <= ToLower(s)[k] <= 'Z')
  {
  }
}
