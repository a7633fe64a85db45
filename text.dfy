/** The string built-ins used to turn the comma-separated `skills` field into a
    list: `split` on a one-character separator, `trim`, and `join` as its inverse. */
module Text {

  /** The code points `String.prototype.trim` strips: ECMAScript WhiteSpace
      (tab, vertical tab, form feed, space, no-break space, byte order mark and
      the Unicode space separators) and LineTerminator (LF, CR, LS, PS). */
  predicate IsWhitespace(c: char) {
    c == '\t' || c == '\n' || c == '\U{000B}' || c == '\U{000C}' || c == '\r' ||
    c == ' ' || c == '\U{00A0}' || c == '\U{1680}' || ('\U{2000}' <= c <= '\U{200A}') ||
    c == '\U{2028}' || c == '\U{2029}' || c == '\U{202F}' || c == '\U{205F}' ||
    c == '\U{3000}' || c == '\U{FEFF}'
  }

  /** Neither end of `s` is whitespace. */
  predicate Unpadded(s: string) {
    s == "" || (!IsWhitespace(s[0]) && !IsWhitespace(s[|s| - 1]))
  }

  /** Number of occurrences of `c` in `s`. */
  function Count(s: string, c: char): nat
    decreases |s|
  {
    if |s| == 0 then 0 else (if s[0] == c then 1 else 0) + Count(s[1..], c)
  }

  /** `s.split(sep)` for a one-character separator: the runs between separators,
      in order, empty runs included; the empty string gives `[""]`. */
  function Split(s: string, sep: char): (r: seq<string>)
    ensures |r| == Count(s, sep) + 1
    ensures forall i :: 0 <= i < |r| ==> sep !in r[i]
    decreases |s|
  {
    if |s| == 0 then [""]
    else
      var rest := Split(s[1..], sep);
      if s[0] == sep then [""] + rest
      else
        assert forall i :: 1 <= i < |rest| ==> ([[s[0]] + rest[0]] + rest[1..])[i] == rest[i];
        [[s[0]] + rest[0]] + rest[1..]
  }

  /** `parts.join(sep)` */
  function Join(parts: seq<string>, sep: char): string
    decreases |parts|
  {
    if |parts| == 0 then ""
    else if |parts| == 1 then parts[0]
    else parts[0] + [sep] + Join(parts[1..], sep)
  }

  /** Splitting loses nothing: joining the pieces with the separator gives the
      input back. */
  lemma {:induction false} JoinSplit(s: string, sep: char)
    ensures Join(Split(s, sep), sep) == s
    decreases |s|
  {
    if |s| > 0 {
      var rest := Split(s[1..], sep);
      JoinSplit(s[1..], sep);
      if s[0] == sep {
        assert ([""] + rest)[1..] == rest;
        assert s == [sep] + s[1..];
      } else {
        var r := [[s[0]] + rest[0]] + rest[1..];
        assert r[1..] == rest[1..];
        assert s == [s[0]] + s[1..];
      }
    }
  }

  /** The end of the run of characters satisfying `strip` that starts at `i`. */
  function RunEnd(s: string, strip: char -> bool, i: nat): (n: nat)
    requires i <= |s|
    ensures i <= n <= |s|
    ensures forall k :: i <= k < n ==> strip(s[k])
    ensures n == |s| || !strip(s[n])
    decreases |s| - i
  {
    if i < |s| && strip(s[i]) then RunEnd(s, strip, i + 1) else i
  }

  /** The start of the run of characters satisfying `strip` that ends at `j`,
      looking no further back than `lo`. */
  function RunStart(s: string, strip: char -> bool, lo: nat, j: nat): (m: nat)
    requires lo <= j <= |s|
    ensures lo <= m <= j
    ensures forall k :: m <= k < j ==> strip(s[k])
    ensures m == lo || !strip(s[m - 1])
    decreases j
  {
    if lo < j && strip(s[j - 1]) then RunStart(s, strip, lo, j - 1) else j
  }

  /** `r` is `s` from position `i` on, with exactly characters satisfying
      `strip` cut away before `i` and after `i + |r|`. */
  ghost predicate StrippedAt(s: string, r: string, i: nat, strip: char -> bool) {
    i + |r| <= |s| &&
    (forall j {:trigger r[j]} :: 0 <= j < |r| ==> r[j] == s[i + j]) &&
    (forall k {:trigger strip(s[k])} :: 0 <= k < i ==> strip(s[k])) &&
    (forall k {:trigger strip(s[k])} :: i + |r| <= k < |s| ==> strip(s[k]))
  }

  /** `s.trim()`: the middle of `s`, with only whitespace cut from either end,
      no whitespace left at either end, and no character that `s` lacks. */
  function Trim(s: string): (r: string)
    ensures Unpadded(r)
    ensures exists i :: StrippedAt(s, r, i, IsWhitespace)
    ensures forall c :: c !in s ==> c !in r
  {
    var n := RunEnd(s, IsWhitespace, 0);
    var m := RunStart(s, IsWhitespace, n, |s|);
    assert StrippedAt(s, s[n..m], n, IsWhitespace);
    s[n..m]
  }

  /** Trimming a string that is already unpadded changes nothing. */
  lemma TrimUnpadded(s: string)
    requires Unpadded(s)
    ensures Trim(s) == s
  {
  }
}
