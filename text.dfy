/**
 * String operations the server (Python) and the client (TypeScript) apply
 * to message text, over `seq<char>`. The two languages disagree on what
 * whitespace is, so each has its own predicate; case mapping is ASCII only.
 */
module Text {
  import opened Base

  /** Whitespace both Python's `str.isspace()` and the ECMAScript
      WhiteSpace / LineTerminator productions agree on: the ASCII controls
      TAB, LF, VT, FF, CR, the space, and the Unicode space separators and
      line / paragraph separators. */
  predicate IsCommonSpace(c: char) {
    c == ' ' || c == '\t' || c == '\n' || c == '\r' || c == '\U{0B}' || c == '\U{0C}'
    || c == '\U{A0}' || c == '\U{1680}' || '\U{2000}' <= c <= '\U{200A}'
    || c == '\U{2028}' || c == '\U{2029}' || c == '\U{202F}' || c == '\U{205F}' || c == '\U{3000}'
  }

  /** Python's `str.isspace()`, which `str.strip()` and `str.lstrip()` remove:
      the common set plus the information separators U+001C..U+001F and
      NEXT LINE U+0085. */
  predicate IsSpace(c: char) {
    IsCommonSpace(c) || '\U{1C}' <= c <= '\U{1F}' || c == '\U{85}'
  }

  /** `not s.strip()` in Python. */
  predicate IsBlank(s: string) {
    forall i :: 0 <= i < |s| ==> IsSpace(s[i])
  }

  /** What `String.prototype.trim()` removes: the common set plus the byte
      order mark U+FEFF. */
  predicate IsJsSpace(c: char) {
    IsCommonSpace(c) || c == '\U{FEFF}'
  }

  /** `!s.trim()` in TypeScript. */
  predicate IsJsBlank(s: string) {
    forall i :: 0 <= i < |s| ==> IsJsSpace(s[i])
  }

  /** The two notions of blank differ in both directions: a text of one
      information separator passes the client's check and fails the
      server's, and a lone byte order mark does the opposite. */
  lemma BlankDiffers()
    ensures !IsJsBlank("\U{1C}") && IsBlank("\U{1C}")
    ensures IsJsBlank("\U{FEFF}") && !IsBlank("\U{FEFF}")
  {
    assert !IsJsSpace("\U{1C}"[0]);
    assert !IsSpace("\U{FEFF}"[0]);
  }

  /** `str.lstrip()`: the longest suffix that does not start with whitespace. */
  function LStrip(s: string): (r: string)
    ensures |r| <= |s| && r == s[|s| - |r|..]
    ensures IsBlank(s[..|s| - |r|])
    ensures r == [] || !IsSpace(r[0])
  {
    if s != [] && IsSpace(s[0]) then LStrip(s[1..]) else s
  }

  /** Stripping a whitespace prefix off a text that does not itself start
      with whitespace gives back exactly that text. */
  lemma {:induction false} LStripBlankPrefix(ws: string, t: string)
    requires IsBlank(ws)
    requires t == [] || !IsSpace(t[0])
    ensures LStrip(ws + t) == t
  {
    if ws != [] {
      assert (ws + t)[1..] == ws[1..] + t;
      LStripBlankPrefix(ws[1..], t);
    }
  }

  /** Concatenation is associative (stated once so that long literal texts
      need not be unfolded to regroup them). */
  lemma AppendAssoc(a: string, b: string, c: string)
    ensures (a + b) + c == a + (b + c)
  {
  }

  function LowerChar(c: char): char {
    if 'A' <= c <= 'Z' then (c as int + 32) as char else c
  }

  /** `str.lower()` on ASCII letters. */
  function Lower(s: string): (r: string)
    ensures |r| == |s|
    ensures forall i :: 0 <= i < |s| ==> r[i] == LowerChar(s[i])
  {
    seq(|s|, i requires 0 <= i < |s| => LowerChar(s[i]))
  }

  function Min(a: int, b: int): int {
    if a <= b then a else b
  }

  /** Python `s[:n]` and JavaScript `s.substring(0, n)` for n >= 0. */
  function Take(s: string, n: nat): (r: string)
    ensures |r| == Min(|s|, n) && r <= s
  {
    if |s| <= n then s else s[..n]
  }

  /** `p` occurs in `s` starting at index `i`. */
  predicate OccursAt(s: string, p: string, i: int) {
    0 <= i && i + |p| <= |s| && s[i..i + |p|] == p
  }

  /** `s.includes(p)` / `p in s`. */
  predicate Contains(s: string, p: string) {
    exists i :: 0 <= i <= |s| - |p| && OccursAt(s, p, i)
  }

  /** The first index at or after `k` where `p` occurs. */
  function FirstFrom(s: string, p: string, k: nat): (r: Option<nat>)
    requires p != []
    ensures r.Some? ==> k <= r.value && OccursAt(s, p, r.value)
    ensures r.Some? ==> forall j :: k <= j < r.value ==> !OccursAt(s, p, j)
    ensures r.None? ==> forall j :: k <= j ==> !OccursAt(s, p, j)
    decreases |s| - k
  {
    if k + |p| > |s| then None
    else if s[k..k + |p|] == p then Some(k)
    else FirstFrom(s, p, k + 1)
  }

  /** `s.indexOf(p)`, with None for -1. */
  function IndexOf(s: string, p: string): (r: Option<nat>)
    requires p != []
    ensures r.Some? ==> OccursAt(s, p, r.value) && forall j :: 0 <= j < r.value ==> !OccursAt(s, p, j)
    ensures r.None? ==> forall j :: 0 <= j ==> !OccursAt(s, p, j)
  {
    FirstFrom(s, p, 0)
  }

  /** `s.split(sep)` in JavaScript for a non-empty string separator. */
  function Split(s: string, sep: string): (parts: seq<string>)
    requires sep != []
    ensures |parts| >= 1
    ensures !Contains(parts[0], sep) && parts[0] <= s
    decreases |s|
  {
    match IndexOf(s, sep)
    case None =>
      assert forall i :: 0 <= i <= |s| - |sep| ==> !OccursAt(s, sep, i);
      [s]
    case Some(i) =>
      assert forall j :: 0 <= j <= i - |sep| ==> OccursAt(s[..i], sep, j) == OccursAt(s, sep, j);
      [s[..i]] + Split(s[i + |sep|..], sep)
  }

  /** `parts.join(sep)`. */
  function Join(parts: seq<string>, sep: string): string
    requires |parts| >= 1
  {
    if |parts| == 1 then parts[0] else parts[0] + sep + Join(parts[1..], sep)
  }

  /** Splitting and joining again with the same separator is the identity. */
  lemma {:induction false} SplitJoin(s: string, sep: string)
    requires sep != []
    ensures Join(Split(s, sep), sep) == s
    decreases |s|
  {
    match IndexOf(s, sep)
    case None =>
    case Some(i) =>
      var rest := s[i + |sep|..];
      var parts := Split(s, sep);
      assert parts == [s[..i]] + Split(rest, sep);
      SplitJoin(rest, sep);
      assert parts[1..] == Split(rest, sep);
      assert Join(parts, sep) == s[..i] + sep + rest;
      assert s == s[..i] + s[i..i + |sep|] + rest;
  }

  /** A text in which the separator never occurs splits into itself alone. */
  lemma SplitWithoutSeparator(s: string, sep: string)
    requires sep != []
    requires forall j :: 0 <= j ==> !OccursAt(s, sep, j)
    ensures Split(s, sep) == [s]
  {
  }

  /** A text in which the separator occurs splits into at least two parts,
      and into at least three when it occurs twice without overlap. */
  lemma {:induction false} SplitCountsOccurrences(s: string, sep: string, i: nat, j: nat)
    requires sep != []
    requires OccursAt(s, sep, i)
    ensures |Split(s, sep)| >= 2
    ensures i + |sep| <= j && OccursAt(s, sep, j) ==> |Split(s, sep)| >= 3
  {
    var first := IndexOf(s, sep).value;
    assert first <= i;
    var rest := s[first + |sep|..];
    if i + |sep| <= j && OccursAt(s, sep, j) {
      var k := j - first - |sep|;
      assert rest[k..k + |sep|] == s[j..j + |sep|];
      SplitCountsOccurrences(rest, sep, k, k);
    }
  }

  /** The second part of a split starts right after the first occurrence
      of the separator. */
  lemma SplitSecondPart(s: string, sep: string)
    requires sep != [] && |Split(s, sep)| >= 2
    ensures IndexOf(s, sep).Some?
    ensures Split(s, sep)[1] <= s[IndexOf(s, sep).value + |sep|..]
  {
  }

  /** An occurrence of `p` followed by a prefix `v` of what comes after it
      is an occurrence of `p + v`. */
  lemma OccursFollowedBy(s: string, p: string, i: int, v: string)
    requires OccursAt(s, p, i) && v <= s[i + |p|..]
    ensures OccursAt(s, p + v, i)
  {
    assert s[i..i + |p| + |v|] == s[i..i + |p|] + s[i + |p|..i + |p| + |v|];
  }

  /** A separator occurring exactly once splits the text in two around it. */
  lemma SplitAtOnlyOccurrence(s: string, sep: string, i: nat)
    requires sep != [] && OccursAt(s, sep, i)
    requires forall j :: 0 <= j && j != i ==> !OccursAt(s, sep, j)
    ensures Split(s, sep) == [s[..i], s[i + |sep|..]]
  {
    var rest := s[i + |sep|..];
    assert IndexOf(s, sep) == Some(i);
    forall j | 0 <= j
      ensures !OccursAt(rest, sep, j)
    {
      if j + |sep| <= |rest| {
        assert s[i + |sep| + j..i + |sep| + j + |sep|] == rest[j..j + |sep|];
        assert !OccursAt(s, sep, i + |sep| + j);
      }
    }
    SplitWithoutSeparator(rest, sep);
    assert Split(s, sep) == [s[..i]] + Split(rest, sep);
  }

  /** The first part of a split is the text up to where the separator
      first occurs. */
  lemma SplitHead(v: string, tail: string, sep: string)
    requires sep != []
    requires forall j :: 0 <= j < |v| ==> !OccursAt(v + tail, sep, j)
    requires tail == [] || OccursAt(tail, sep, 0)
    ensures Split(v + tail, sep)[0] == v
  {
    var s := v + tail;
    if tail == [] {
      assert s == v;
      forall j | 0 <= j
        ensures !OccursAt(s, sep, j)
      {
      }
      SplitWithoutSeparator(s, sep);
    } else {
      OccursAfterPrefix(v, tail, sep);
      SplitHeadAt(s, |v|, sep);
      assert s[..|v|] == v;
    }
  }

  /** An occurrence at the start of `tail` is one at `|v|` in `v + tail`. */
  lemma OccursAfterPrefix(v: string, tail: string, sep: string)
    requires OccursAt(tail, sep, 0)
    ensures OccursAt(v + tail, sep, |v|)
  {
    var s := v + tail;
    forall k | 0 <= k < |sep|
      ensures s[|v|..|v| + |sep|][k] == sep[k]
    {
      assert s[|v| + k] == tail[k] == tail[0..|sep|][k];
    }
  }

  /** Where the separator first occurs, the first part ends. */
  lemma SplitHeadAt(s: string, i: nat, sep: string)
    requires sep != [] && OccursAt(s, sep, i)
    requires forall j :: 0 <= j < i ==> !OccursAt(s, sep, j)
    ensures Split(s, sep)[0] == s[..i]
  {
    var first := IndexOf(s, sep);
    assert first.Some? && first.value == i;
  }

  function DigitChar(d: nat): char
    requires d < 10
  {
    "0123456789"[d]
  }

  /** The decimal text of a natural number, as template literals print it. */
  function NatToString(n: nat): string
    decreases n
  {
    if n < 10 then [DigitChar(n)] else NatToString(n / 10) + [DigitChar(n % 10)]
  }

  /** The decimal text of an integer, with a leading '-' when negative. */
  function IntToString(i: int): string {
    if i < 0 then "-" + NatToString(-i) else NatToString(i)
  }
}
