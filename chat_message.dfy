/**
 * One chat bubble: the inline markup tokenizer (`**bold**`, `__underline__`
 * and `` `code` `` on one line), how each part is shown, the summary
 * test, and the bookmark and reaction buttons with their local state.
 */
module ChatMessage {
  import opened Base
  import opened Text
  import opened Models
  import opened ViewLogic

  /** The characters `.` does not match in a JavaScript regular expression. */
  predicate IsLineTerminator(c: char) {
    c == '\n' || c == '\r' || c == '\U{2028}' || c == '\U{2029}'
  }

  /** `.*?` followed by the closing delimiter `d`, from index `k`: the end
      of the first `d` at or after `k` with no line terminator before it. */
  function CloseFrom(s: string, k: nat, d: string): (r: Option<nat>)
    requires d != []
    ensures r.Some? ==> k + |d| <= r.value <= |s| && OccursAt(s, d, r.value - |d|)
    ensures r.Some? ==> forall j :: k <= j < r.value - |d| ==> !IsLineTerminator(s[j])
    ensures r.Some? ==> forall j :: k <= j < r.value - |d| ==> !OccursAt(s, d, j)
    decreases |s| - k
  {
    if OccursAt(s, d, k) then Some(k + |d|)
    else if k < |s| && !IsLineTerminator(s[k]) then CloseFrom(s, k + 1, d)
    else None
  }

  /** `d.*?d` matched at index `q`: the index after the match. */
  function Delimited(s: string, q: nat, d: string): (r: Option<nat>)
    requires d != []
    ensures r.Some? ==> q + 2 * |d| <= r.value <= |s| && OccursAt(s, d, q) && OccursAt(s, d, r.value - |d|)
    ensures r.Some? ==> forall j :: q + |d| <= j < r.value - |d| ==> !IsLineTerminator(s[j])
  {
    if OccursAt(s, d, q) then CloseFrom(s, q + |d|, d) else None
  }

  /** The pattern `(\*\*.*?\*\*|__.*?__|`.*?`)` matched at index `q`
      (sticky): the first alternative that matches, and where it ends. */
  function MatchAt(s: string, q: nat): (r: Option<nat>)
    ensures r.Some? ==> q < r.value <= |s|
  {
    var bold := Delimited(s, q, "**");
    if bold.Some? then bold
    else
      var under := Delimited(s, q, "__");
      if under.Some? then under else Delimited(s, q, "`")
  }

  /** A match of `d.*?d` lies on one line when `d` does. */
  lemma DelimitedOneLine(s: string, q: nat, d: string)
    requires d != [] && Delimited(s, q, d).Some?
    requires OneLine(d)
    ensures OneLine(s[q..Delimited(s, q, d).value])
  {
    var e := Delimited(s, q, d).value;
    var t := s[q..e];
    forall j | 0 <= j < |t|
      ensures !IsLineTerminator(t[j])
    {
      assert t[j] == s[q + j];
      if q + j < q + |d| {
        assert s[q + j] == s[q..q + |d|][j];
      } else if q + j >= e - |d| {
        assert s[q + j] == s[e - |d|..e][q + j - (e - |d|)];
      }
    }
  }

  /** No character of `t` is a line terminator. */
  predicate OneLine(t: string) {
    forall j :: 0 <= j < |t| ==> !IsLineTerminator(t[j])
  }

  /** A match of `d.*?d` opens and closes with `d`. */
  lemma DelimitedIsToken(s: string, q: nat, d: string)
    requires d != [] && Delimited(s, q, d).Some?
    ensures TokenWith(s[q..Delimited(s, q, d).value], d)
  {
    SliceIsToken(s, q, Delimited(s, q, d).value, d);
  }

  /** A slice opening and closing with `d` (not overlapping) is a token. */
  lemma SliceIsToken(s: string, q: nat, e: nat, d: string)
    requires q + 2 * |d| <= e <= |s| && OccursAt(s, d, q) && OccursAt(s, d, e - |d|)
    ensures TokenWith(s[q..e], d)
  {
    var t := s[q..e];
    assert t[..|d|] == s[q..q + |d|];
    assert t[|t| - |d|..] == s[e - |d|..e];
  }

  /** A match holds no line terminator. */
  lemma MatchOneLine(s: string, q: nat)
    requires MatchAt(s, q).Some?
    ensures OneLine(s[q..MatchAt(s, q).value])
  {
    if Delimited(s, q, "**").Some? {
      DelimitedOneLine(s, q, "**");
    } else if Delimited(s, q, "__").Some? {
      DelimitedOneLine(s, q, "__");
    } else {
      DelimitedOneLine(s, q, "`");
    }
  }

  /** A match opens and closes with one of the delimiters, and holds no
      line terminator. */
  lemma MatchIsToken(s: string, q: nat)
    requires MatchAt(s, q).Some?
    ensures IsToken(s[q..MatchAt(s, q).value])
    ensures OneLine(s[q..MatchAt(s, q).value])
  {
    if Delimited(s, q, "**").Some? {
      DelimitedIsToken(s, q, "**");
    } else if Delimited(s, q, "__").Some? {
      DelimitedIsToken(s, q, "__");
    } else {
      DelimitedIsToken(s, q, "`");
    }
    MatchOneLine(s, q);
  }

  /** `s.split(re)` with a capturing group, from the last cut `p`, looking
      for a match at `q`: the text before each match, then the match. */
  function SplitFrom(s: string, p: nat, q: nat): (parts: seq<string>)
    requires p <= q <= |s|
    decreases |s| - q
  {
    if q >= |s| then [s[p..]]
    else
      var m := MatchAt(s, q);
      if m.None? then SplitFrom(s, p, q + 1)
      else [s[p..q], s[q..m.value]] + SplitFrom(s, m.value, m.value)
  }

  lemma OddPlusTwo(n: nat)
    requires n % 2 == 1
    ensures (n + 2) % 2 == 1
  {
  }

  /** Text and matches alternate, text first and last: the count is odd. */
  lemma {:induction false} SplitFromOdd(s: string, p: nat, q: nat)
    requires p <= q <= |s|
    ensures |SplitFrom(s, p, q)| % 2 == 1
    decreases |s| - q
  {
    if q < |s| {
      var m := MatchAt(s, q);
      if m.None? {
        SplitFromOdd(s, p, q + 1);
      } else {
        var rest := SplitFrom(s, m.value, m.value);
        SplitFromOdd(s, m.value, m.value);
        assert |SplitFrom(s, p, q)| == |rest| + 2;
        OddPlusTwo(|rest|);
      }
    }
  }

  /** `text.split(/(\*\*.*?\*\*|__.*?__|`.*?`)/g)`: plain text at even
      positions, matched tokens at odd ones. */
  function Tokenize(text: string): (parts: seq<string>)
    ensures |parts| % 2 == 1
  {
    SplitFromOdd(text, 0, 0);
    SplitFrom(text, 0, 0)
  }

  /** All parts joined. */
  function Concat(parts: seq<string>): string {
    if parts == [] then "" else parts[0] + Concat(parts[1..])
  }

  lemma ConcatAppend(a: seq<string>, b: seq<string>)
    ensures Concat(a + b) == Concat(a) + Concat(b)
  {
    if a == [] {
      assert a + b == b;
    } else {
      assert (a + b)[1..] == a[1..] + b;
      ConcatAppend(a[1..], b);
    }
  }

  lemma ConcatPair(a: string, b: string, rest: seq<string>)
    ensures Concat([a, b] + rest) == a + b + Concat(rest)
  {
    ConcatAppend([a, b], rest);
    assert Concat([a, b]) == a + (b + Concat([]));
  }

  lemma SliceJoin(s: string, p: nat, q: nat, e: nat)
    requires p <= q <= e <= |s|
    ensures s[p..q] + s[q..e] + s[e..] == s[p..]
  {
    assert s[q..] == s[q..e] + s[e..];
    assert s[p..] == s[p..q] + s[q..];
  }

  /** Splitting loses and adds nothing: the parts joined are the text. */
  lemma {:induction false} SplitFromConcat(s: string, p: nat, q: nat)
    requires p <= q <= |s|
    ensures Concat(SplitFrom(s, p, q)) == s[p..]
    decreases |s| - q
  {
    if q >= |s| {
      assert Concat([s[p..]]) == s[p..] + Concat([]);
    } else {
      var m := MatchAt(s, q);
      if m.None? {
        assert SplitFrom(s, p, q) == SplitFrom(s, p, q + 1);
        SplitFromConcat(s, p, q + 1);
      } else {
        var e := m.value;
        var rest := SplitFrom(s, e, e);
        assert SplitFrom(s, p, q) == [s[p..q], s[q..e]] + rest;
        SplitFromConcat(s, e, e);
        ConcatPair(s[p..q], s[q..e], rest);
        SliceJoin(s, p, q, e);
      }
    }
  }

  lemma TokenizeConcat(text: string)
    ensures Concat(Tokenize(text)) == text
  {
    SplitFromConcat(text, 0, 0);
  }

  /** A matched token opens and closes with the same delimiter. */
  predicate TokenWith(t: string, d: string) {
    |t| >= 2 * |d| && StartsWith(t, d) && EndsWith(t, d)
  }

  predicate IsToken(t: string) {
    TokenWith(t, "**") || TokenWith(t, "__") || TokenWith(t, "`")
  }

  /** A token as the pattern matches it: delimited, on one line. */
  predicate IsLineToken(t: string) {
    IsToken(t) && OneLine(t)
  }

  /** Text and a token in front keep the tokens at odd positions. */
  lemma OddTokensPrepend(a: string, t: string, rest: seq<string>)
    requires IsLineToken(t)
    requires forall k :: 0 <= k < |rest| && k % 2 == 1 ==> IsLineToken(rest[k])
    ensures forall k :: 0 <= k < |[a, t] + rest| && k % 2 == 1 ==> IsLineToken(([a, t] + rest)[k])
  {
    var parts := [a, t] + rest;
    forall k | 0 <= k < |parts| && k % 2 == 1
      ensures IsLineToken(parts[k])
    {
      if k >= 2 {
        assert parts[k] == rest[k - 2];
      }
    }
  }

  /** Every part at an odd position is a token on one line. */
  lemma {:induction false} SplitFromTokens(s: string, p: nat, q: nat)
    requires p <= q <= |s|
    ensures forall k :: 0 <= k < |SplitFrom(s, p, q)| && k % 2 == 1 ==> IsLineToken(SplitFrom(s, p, q)[k])
    decreases |s| - q
  {
    if q < |s| {
      var m := MatchAt(s, q);
      if m.None? {
        assert SplitFrom(s, p, q) == SplitFrom(s, p, q + 1);
        SplitFromTokens(s, p, q + 1);
      } else {
        var e := m.value;
        SplitFromTokens(s, e, e);
        MatchIsToken(s, q);
        var rest := SplitFrom(s, e, e);
        assert SplitFrom(s, p, q) == [s[p..q], s[q..e]] + rest;
        OddTokensPrepend(s[p..q], s[q..e], rest);
      }
    }
  }

  lemma TokenizeTokens(text: string)
    ensures forall k :: 0 <= k < |Tokenize(text)| && k % 2 == 1 ==> IsToken(Tokenize(text)[k])
    ensures forall k :: 0 <= k < |Tokenize(text)| && k % 2 == 1 ==> OneLine(Tokenize(text)[k])
  {
    SplitFromTokens(text, 0, 0);
  }

  /** The pattern's sticky match at each index of `s`. */
  function Matcher(s: string): nat -> Option<nat> {
    q => MatchAt(s, q)
  }

  /** No match of `m` starts inside `t`, placed at `o`. */
  predicate PlainAt(m: nat -> Option<nat>, o: nat, t: string) {
    PlainFor(m, o, |t|)
  }

  /** No match starts at any of the `n` positions from `o`. */
  predicate PlainFor(m: nat -> Option<nat>, o: nat, n: nat) {
    forall i :: o <= i < o + n ==> m(i).None?
  }

  /** `t`, placed at `o` in `s`, is exactly the match of `m` starting there. */
  predicate MatchedAt(s: string, m: nat -> Option<nat>, o: nat, t: string) {
    m(o).Some? && m(o).value == o + |t| && o + |t| <= |s| && t == s[o..o + |t|]
  }

  /** Part `k` of a split, placed at `o`: plain text at even positions,
      the match starting at `o` at odd ones. */
  predicate PartAt(s: string, m: nat -> Option<nat>, o: nat, t: string, k: nat) {
    if k % 2 == 0 then PlainAt(m, o, t) else MatchedAt(s, m, o, t)
  }

  /** Every part of `parts`, laid out from `p`, is in place. */
  predicate InPlace(s: string, m: nat -> Option<nat>, p: nat, parts: seq<string>) {
    forall k :: 0 <= k < |parts| ==> PartAt(s, m, p + |Concat(parts[..k])|, parts[k], k)
  }

  /** `parts`, laid out from `p`, read two at a time: plain text, then the
      match starting right after it, then the rest. */
  predicate Scanned(s: string, m: nat -> Option<nat>, p: nat, parts: seq<string>)
    decreases |parts|
  {
    |parts| == 0 ||
    (PlainAt(m, p, parts[0]) &&
     (|parts| == 1 ||
      (MatchedAt(s, m, p + |parts[0]|, parts[1]) && Scanned(s, m, p + |parts[0]| + |parts[1]|, parts[2..]))))
  }

  /** Two parts in front move part `k` of the rest to `k + 2`, shifted by
      their length. */
  lemma PrefixShift(a: string, t: string, rest: seq<string>, k: nat)
    requires k < |rest|
    ensures ([a, t] + rest)[k + 2] == rest[k]
    ensures |Concat(([a, t] + rest)[..k + 2])| == |a| + |t| + |Concat(rest[..k])|
  {
    assert ([a, t] + rest)[..k + 2] == [a, t] + rest[..k];
    ConcatPair(a, t, rest[..k]);
  }

  /** Part `k + 2` of `[a, t] + rest` and part `k` of `rest` are read the
      same way. */
  lemma PartAtParity(s: string, m: nat -> Option<nat>, o: nat, t: string, k: nat)
    ensures PartAt(s, m, o, t, k + 2) == PartAt(s, m, o, t, k)
  {
    assert (k + 2) % 2 == k % 2;
  }

  /** Part `j` of a scanned rest is part `j + 2` of the whole, in place. */
  lemma ScanShifted(s: string, m: nat -> Option<nat>, p: nat, a: string, t: string, rest: seq<string>, j: nat)
    requires j < |rest| && InPlace(s, m, p + |a| + |t|, rest)
    ensures PartAt(s, m, p + |Concat(([a, t] + rest)[..j + 2])|, ([a, t] + rest)[j + 2], j + 2)
  {
    PrefixShift(a, t, rest, j);
    assert PartAt(s, m, p + |a| + |t| + |Concat(rest[..j])|, rest[j], j);
    PartAtParity(s, m, p + |a| + |t| + |Concat(rest[..j])|, rest[j], j);
  }

  /** The text and the match in front are parts 0 and 1, in place. */
  lemma ScanFront(s: string, m: nat -> Option<nat>, p: nat, a: string, t: string, rest: seq<string>)
    requires PlainAt(m, p, a) && MatchedAt(s, m, p + |a|, t)
    ensures PartAt(s, m, p + |Concat(([a, t] + rest)[..0])|, ([a, t] + rest)[0], 0)
    ensures PartAt(s, m, p + |Concat(([a, t] + rest)[..1])|, ([a, t] + rest)[1], 1)
  {
    assert ([a, t] + rest)[..0] == [];
    assert ([a, t] + rest)[..1] == [a];
    assert Concat([a]) == a + Concat([]);
  }

  /** Plain text then a match in front of a scanned rest keep every part
      at its place. */
  lemma ScanPrepend(s: string, m: nat -> Option<nat>, p: nat, a: string, t: string, rest: seq<string>)
    requires PlainAt(m, p, a) && MatchedAt(s, m, p + |a|, t)
    requires InPlace(s, m, p + |a| + |t|, rest)
    ensures InPlace(s, m, p, [a, t] + rest)
  {
    var parts := [a, t] + rest;
    ScanFront(s, m, p, a, t, rest);
    forall k | 2 <= k < |parts|
      ensures PartAt(s, m, p + |Concat(parts[..k])|, parts[k], k)
    {
      ScanShifted(s, m, p, a, t, rest, k - 2);
    }
  }

  /** Parts read two at a time are each in place. */
  lemma {:induction false} ScannedInPlace(s: string, m: nat -> Option<nat>, p: nat, parts: seq<string>)
    requires Scanned(s, m, p, parts)
    ensures InPlace(s, m, p, parts)
    decreases |parts|
  {
    if |parts| == 1 {
      assert parts[..0] == [];
    } else if |parts| >= 2 {
      var rest := parts[2..];
      ScannedInPlace(s, m, p + |parts[0]| + |parts[1]|, rest);
      assert parts == [parts[0], parts[1]] + rest;
      ScanPrepend(s, m, p, parts[0], parts[1], rest);
    }
  }

  /** Empty text holds no match. */
  lemma PlainEmpty(m: nat -> Option<nat>, o: nat)
    ensures PlainFor(m, o, 0)
  {
  }

  /** Plain text grows by a character at which no match starts. */
  lemma PlainGrows(m: nat -> Option<nat>, p: nat, n: nat)
    requires PlainFor(m, p, n) && m(p + n).None?
    ensures PlainFor(m, p, n + 1)
  {
    forall i | p <= i < p + n + 1
      ensures m(i).None?
    {
      if i < p + n {
        assert PlainFor(m, p, n);
      }
    }
  }

  /** Plain text, a match, and a scanned rest after the match are in place. */
  lemma ScanStep(s: string, m: nat -> Option<nat>, p: nat, q: nat, e: nat, rest: seq<string>)
    requires p <= q < e <= |s|
    requires PlainAt(m, p, s[p..q]) && m(q) == Some(e)
    requires Scanned(s, m, e, rest)
    ensures Scanned(s, m, p, [s[p..q], s[q..e]] + rest)
  {
    assert ([s[p..q], s[q..e]] + rest)[2..] == rest;
  }

  /** One step of the split: no match at `q` moves on, a match at `q`
      cuts the text before it and the match. */
  lemma SplitFromStep(s: string, p: nat, q: nat)
    requires p <= q < |s|
    ensures MatchAt(s, q).None? ==> SplitFrom(s, p, q) == SplitFrom(s, p, q + 1)
    ensures MatchAt(s, q).Some? ==>
              SplitFrom(s, p, q) == [s[p..q], s[q..MatchAt(s, q).value]] + SplitFrom(s, MatchAt(s, q).value, MatchAt(s, q).value)
  {
  }

  /** At the end of the text the rest is one plain part. */
  lemma ScanEnd(s: string, p: nat)
    requires p <= |s|
    requires PlainFor(Matcher(s), p, |s| - p)
    ensures Scanned(s, Matcher(s), p, SplitFrom(s, p, |s|))
  {
  }

  /** No match at `q`: the plain text reaches past `q`. */
  lemma ScanPastNone(s: string, p: nat, q: nat)
    requires p <= q < |s| && MatchAt(s, q).None?
    requires PlainFor(Matcher(s), p, q - p)
    ensures PlainFor(Matcher(s), p, q + 1 - p)
  {
    assert Matcher(s)(q).None?;
    PlainGrows(Matcher(s), p, q - p);
  }

  /** No match at `q`: the split from `q` is the split from `q + 1`. */
  lemma ScanSkip(s: string, p: nat, q: nat)
    requires p <= q < |s| && MatchAt(s, q).None?
    requires Scanned(s, Matcher(s), p, SplitFrom(s, p, q + 1))
    ensures Scanned(s, Matcher(s), p, SplitFrom(s, p, q))
  {
    SplitFromStep(s, p, q);
  }

  /** A match at `q`: the text before it and the match come first. */
  lemma ScanMatch(s: string, p: nat, q: nat)
    requires p <= q < |s| && MatchAt(s, q).Some?
    requires PlainFor(Matcher(s), p, q - p)
    requires Scanned(s, Matcher(s), MatchAt(s, q).value, SplitFrom(s, MatchAt(s, q).value, MatchAt(s, q).value))
    ensures Scanned(s, Matcher(s), p, SplitFrom(s, p, q))
  {
    var e := MatchAt(s, q).value;
    SplitFromStep(s, p, q);
    assert Matcher(s)(q) == Some(e);
    ScanStep(s, Matcher(s), p, q, e, SplitFrom(s, e, e));
  }

  /** The split scans left to right: every even part is text in which no
      match starts, and every odd part is the match starting right after
      the parts before it. */
  lemma {:induction false} SplitFromScans(s: string, p: nat, q: nat)
    requires p <= q <= |s|
    requires PlainFor(Matcher(s), p, q - p)
    ensures Scanned(s, Matcher(s), p, SplitFrom(s, p, q))
    decreases |s| - q, 1
  {
    if q >= |s| {
      ScanEnd(s, p);
    } else if MatchAt(s, q).None? {
      ScansPastNone(s, p, q);
    } else {
      ScansPastMatch(s, p, q);
    }
  }

  /** The scan where no match starts at `q`. */
  lemma {:induction false} ScansPastNone(s: string, p: nat, q: nat)
    requires p <= q < |s| && MatchAt(s, q).None?
    requires PlainFor(Matcher(s), p, q - p)
    ensures Scanned(s, Matcher(s), p, SplitFrom(s, p, q))
    decreases |s| - q, 0
  {
    ScanPastNone(s, p, q);
    SplitFromScans(s, p, q + 1);
    ScanSkip(s, p, q);
  }

  /** The scan where a match starts at `q`. */
  lemma {:induction false} ScansPastMatch(s: string, p: nat, q: nat)
    requires p <= q < |s| && MatchAt(s, q).Some?
    requires PlainFor(Matcher(s), p, q - p)
    ensures Scanned(s, Matcher(s), p, SplitFrom(s, p, q))
    decreases |s| - q, 0
  {
    var e := MatchAt(s, q).value;
    PlainEmpty(Matcher(s), e);
    SplitFromScans(s, e, e);
    ScanMatch(s, p, q);
  }

  /** The split finds every match, leftmost first: with `off(k)` the length
      of the parts before part `k`, no match starts inside a plain part, and
      each token is the match starting at its offset. */
  lemma TokenizeScans(text: string)
    ensures forall k :: 0 <= k < |Tokenize(text)| && k % 2 == 0 ==>
              PlainAt(Matcher(text), |Concat(Tokenize(text)[..k])|, Tokenize(text)[k])
    ensures forall k :: 0 <= k < |Tokenize(text)| && k % 2 == 1 ==>
              MatchedAt(text, Matcher(text), |Concat(Tokenize(text)[..k])|, Tokenize(text)[k])
  {
    SplitFromScans(text, 0, 0);
    ScannedInPlace(text, Matcher(text), 0, Tokenize(text));
  }

  /** Scanned parts that join to the text leave no match outside the
      first part only when there is more than one part. */
  lemma ScannedMatchSplits(s: string, m: nat -> Option<nat>, parts: seq<string>, i: nat)
    requires |parts| % 2 == 1 && Scanned(s, m, 0, parts) && Concat(parts) == s
    requires i < |s| && m(i).Some?
    ensures |parts| >= 3
  {
    assert |parts[0]| <= i;
    assert Concat(parts) == parts[0] + Concat(parts[1..]);
    assert parts[1..] != [];
  }

  /** A text in which the pattern matches somewhere is split: it is not
      returned whole as one plain part. */
  lemma TokenizeFindsMatch(text: string, i: nat)
    requires MatchAt(text, i).Some?
    ensures |Tokenize(text)| >= 3
  {
    SplitFromScans(text, 0, 0);
    TokenizeConcat(text);
    assert Matcher(text)(i).Some?;
    ScannedMatchSplits(text, Matcher(text), Tokenize(text), i);
  }

  /** How a part is shown. */
  datatype Shown = Strong(text: string) | Underline(text: string) | Code(text: string) | Plain(text: string)

  /** `s.slice(a, -b)` for a, b >= 0: empty when the ends cross. */
  function SliceInner(s: string, a: nat, b: nat): (r: string)
    ensures a + b <= |s| ==> r == s[a..|s| - b]
    ensures a + b > |s| ==> r == ""
  {
    if a + b <= |s| then s[a..|s| - b] else ""
  }

  predicate StartsWith(s: string, p: string) { p <= s }
  predicate EndsWith(s: string, p: string) { |p| <= |s| && s[|s| - |p|..] == p }

  /** The markup a shown part was written with, put back. */
  function Redecorate(x: Shown): string {
    match x
    case Strong(t) => "**" + t + "**"
    case Underline(t) => "__" + t + "__"
    case Code(t) => "`" + t + "`"
    case Plain(t) => t
  }

  /** `renderContent` on one part, as written: every part (plain text
      included) is classified by how it starts and ends, and the
      delimiters are sliced off. */
  function RenderPart(part: string): (r: Shown)
    ensures r.Strong? <==> StartsWith(part, "**") && EndsWith(part, "**")
    ensures r.Underline? <==> !r.Strong? && StartsWith(part, "__") && EndsWith(part, "__")
    ensures r.Code? <==> !r.Strong? && !r.Underline? && StartsWith(part, "`") && EndsWith(part, "`")
    ensures r.Plain? ==> r.text == part
  {
    if StartsWith(part, "**") && EndsWith(part, "**") then Strong(SliceInner(part, 2, 2))
    else if StartsWith(part, "__") && EndsWith(part, "__") then Underline(SliceInner(part, 2, 2))
    else if StartsWith(part, "`") && EndsWith(part, "`") then Code(SliceInner(part, 1, 1))
    else Plain(part)
  }

  /** A token is its delimiter, its inside, and its delimiter again. */
  lemma TokenRewraps(t: string, d: string)
    requires TokenWith(t, d)
    ensures d + t[|d|..|t| - |d|] + d == t
  {
    assert t == t[..|d|] + t[|d|..|t| - |d|] + t[|t| - |d|..];
  }

  /** On a matched token the classification only drops the delimiters. */
  lemma RenderTokenKeepsText(t: string)
    requires IsToken(t)
    ensures Redecorate(RenderPart(t)) == t
  {
    if TokenWith(t, "**") {
      RenderBoldToken(t);
    } else if TokenWith(t, "__") {
      RenderUnderlineToken(t);
    } else {
      RenderCodeToken(t);
    }
  }

  lemma RenderBoldToken(t: string)
    requires TokenWith(t, "**")
    ensures Redecorate(RenderPart(t)) == t
  {
    assert RenderPart(t) == Strong(t[2..|t| - 2]);
    TokenRewraps(t, "**");
  }

  lemma RenderUnderlineToken(t: string)
    requires TokenWith(t, "__") && !TokenWith(t, "**")
    ensures Redecorate(RenderPart(t)) == t
  {
    assert t[0] == '_';
    assert RenderPart(t) == Underline(t[2..|t| - 2]);
    TokenRewraps(t, "__");
  }

  lemma RenderCodeToken(t: string)
    requires TokenWith(t, "`") && !TokenWith(t, "**") && !TokenWith(t, "__")
    ensures Redecorate(RenderPart(t)) == t
  {
    assert t[0] == '`';
    assert RenderPart(t) == Code(t[1..|t| - 1]);
    TokenRewraps(t, "`");
  }

  /** As written, a message that is a lone backtick shows nothing: the
      plain part "`" is classified as code and sliced to "". */
  lemma LoneBacktickVanishes()
    ensures Tokenize("`") == ["`"]
    ensures RenderPart("`") == Code("")
    ensures Redecorate(RenderPart("`")) != "`"
  {
    assert MatchAt("`", 0).None?;
    assert SplitFrom("`", 0, 1) == ["`"];
  }

  /** `renderContent` corrected: only matched tokens (odd positions) are
      classified; plain text is shown as it is. */
  function Render(text: string): (r: seq<Shown>)
    ensures |r| == |Tokenize(text)|
    ensures forall k :: 0 <= k < |r| && k % 2 == 0 ==> r[k] == Plain(Tokenize(text)[k])
    ensures forall k :: 0 <= k < |r| && k % 2 == 1 ==> r[k] == RenderPart(Tokenize(text)[k])
  {
    var parts := Tokenize(text);
    seq(|parts|, k requires 0 <= k < |parts| => if k % 2 == 1 then RenderPart(parts[k]) else Plain(parts[k]))
  }

  /** The corrected rendering shows every character of the text except
      the delimiters it consumed: putting them back gives the text. */
  lemma RenderKeepsText(text: string)
    ensures forall k :: 0 <= k < |Render(text)| ==> Redecorate(Render(text)[k]) == Tokenize(text)[k]
    ensures Concat(Tokenize(text)) == text
  {
    TokenizeTokens(text);
    TokenizeConcat(text);
    var parts := Tokenize(text);
    forall k | 0 <= k < |parts| && k % 2 == 1
      ensures Redecorate(Render(text)[k]) == parts[k]
    {
      RenderTokenKeepsText(parts[k]);
    }
  }

  /** `isSummary`: the content mentions the summary heading. */
  predicate IsSummary(content: string) {
    Contains(content, SUMMARY_HEADING)
  }

  /** The message `end` stores is always shown as a summary. */
  lemma SummaryMessageIsSummary(summary: string)
    ensures IsSummary(SummaryMessageContent(summary))
  {
    var c := SummaryMessageContent(summary);
    assert OccursAt(c, SUMMARY_HEADING, 0);
  }

  /** `.*?d` closes at the first `d`, when no line terminator comes first. */
  lemma {:induction false} CloseFromFirst(s: string, k: nat, d: string, e: nat)
    requires d != [] && k <= e && OccursAt(s, d, e)
    requires forall j :: k <= j < e ==> !OccursAt(s, d, j) && !IsLineTerminator(s[j])
    ensures CloseFrom(s, k, d) == Some(e + |d|)
    decreases e - k
  {
    if k < e {
      CloseFromFirst(s, k + 1, d, e);
    }
  }

  lemma HeadingTextPlain()
    ensures forall j :: 0 <= j < |SUMMARY_TITLE| ==> SUMMARY_TITLE[j] != '*' && !IsLineTerminator(SUMMARY_TITLE[j])
  {
    var t := SUMMARY_TITLE;
    forall j | 0 <= j < |t|
      ensures t[j] != '*' && !IsLineTerminator(t[j])
    {
      assert t[j] == ' ' || 'A' <= t[j] <= 'z';
    }
  }

  /** The summary message's first match is its whole heading. */
  lemma SummaryMatch(summary: string)
    ensures MatchAt(SummaryMessageContent(summary), 0) == Some(|SUMMARY_HEADING|)
  {
    var c := SummaryMessageContent(summary);
    assert c[..24] == SUMMARY_HEADING;
    HeadingMatch(c);
  }

  lemma NotDelimiterAt(c: string, j: nat)
    requires j < |c| && c[j] != '*'
    ensures !OccursAt(c, "**", j)
  {
    if j + 2 <= |c| {
      assert c[j..j + 2][0] == c[j];
    }
  }

  /** A text opening with the heading matches it first, in full. */
  lemma HeadingMatch(c: string)
    requires |c| >= 24 && c[..24] == SUMMARY_HEADING
    ensures MatchAt(c, 0) == Some(24)
  {
    HeadingTextPlain();
    var h := SUMMARY_HEADING;
    forall j | 2 <= j < 22
      ensures !OccursAt(c, "**", j) && !IsLineTerminator(c[j])
    {
      assert c[j] == c[..24][j] == h[j];
      assert h[j] == SUMMARY_TITLE[j - 2];
      NotDelimiterAt(c, j);
    }
    assert OccursAt(c, "**", 22) by { assert c[22..24] == h[22..24]; }
    CloseFromFirst(c, 2, "**", 22);
    assert OccursAt(c, "**", 0) by { assert c[0..2] == h[0..2]; }
  }

  /** The message `end` stores opens with its heading as a bold token:
      the summary is shown with "Conversation Summary" in bold. */
  lemma SummaryHeadingIsBold(summary: string)
    ensures var parts := Tokenize(SummaryMessageContent(summary));
            |parts| >= 3 && parts[0] == "" && parts[1] == SUMMARY_HEADING &&
            RenderPart(parts[1]) == Strong(SUMMARY_TITLE)
  {
    var c := SummaryMessageContent(summary);
    SummaryMatch(summary);
    var h := SUMMARY_HEADING;
    SplitFromStep(c, 0, 0);
    assert c[0..24] == h;
    assert h[2..|h| - 2] == SUMMARY_TITLE;
  }

  /** The reaction kinds, in button order. */
  const REACTIONS: seq<string> := ["heart", "thumbsup", "smile"]

  /** The reaction buttons: each kind, and whether it is shown active. */
  function ReactionButtons(local: seq<string>): (r: seq<(string, bool)>)
    ensures |r| == |REACTIONS|
    ensures forall k :: 0 <= k < |r| ==> r[k].0 == REACTIONS[k] && (r[k].1 <==> REACTIONS[k] in local)
  {
    seq(|REACTIONS|, k requires 0 <= k < |REACTIONS| => (REACTIONS[k], REACTIONS[k] in local))
  }

  /** With the server's at-most-one reaction list, at most one button is
      active. */
  lemma AtMostOneActiveButton(local: seq<string>, a: nat, b: nat)
    requires |local| <= 1
    requires a < |REACTIONS| && b < |REACTIONS|
    requires ReactionButtons(local)[a].1 && ReactionButtons(local)[b].1
    ensures a == b
  {
    assert REACTIONS[a] == local[0] && REACTIONS[b] == local[0];
  }

  /** A call the bubble makes. */
  datatype ActionCall = BookmarkCall(id: MessageId) | ReactCall(id: MessageId, kind: string)

  /** `!messageId`: an absent id and id 0 are falsy. */
  predicate HasId(messageId: Option<MessageId>) {
    messageId.Some? && messageId.value != 0
  }

  class MessageActions {
    var messageId: Option<MessageId>
    var localBookmarked: bool
    var localReactions: seq<string>

    /** The local state starts from the props (false and [] by default). */
    constructor (messageId: Option<MessageId>, isBookmarked: Option<bool>, reactions: Option<seq<string>>)
      ensures this.messageId == messageId
      ensures localBookmarked == isBookmarked.GetOr(false) && localReactions == reactions.GetOr([])
    {
      this.messageId := messageId;
      localBookmarked := isBookmarked.GetOr(false);
      localReactions := reactions.GetOr([]);
    }

    /** `handleBookmark`: without an id nothing happens; otherwise the
        local flag becomes the server's value (never a local flip) and the
        parent is told, or nothing changes on failure. */
    method HandleBookmark(result: Remote<bool>) returns (calls: seq<ActionCall>, notified: bool)
      modifies this
      ensures !HasId(messageId) ==> calls == [] && !notified && unchanged(this)
      ensures HasId(messageId) ==> calls == [BookmarkCall(messageId.value)]
      ensures HasId(messageId) && result.Ok? ==> localBookmarked == result.value && notified
      ensures !(HasId(messageId) && result.Ok?) ==> localBookmarked == old(localBookmarked) && !notified
      ensures localReactions == old(localReactions) && messageId == old(messageId)
    {
      if !HasId(messageId) {
        return [], false;
      }
      calls := [BookmarkCall(messageId.value)];
      notified := false;
      if result.Ok? {
        localBookmarked := result.value;
        notified := true;
      }
    }

    /** `handleReaction`: without an id nothing happens; otherwise the
        local list becomes the server's list and the parent is told, or
        nothing changes on failure. */
    method HandleReaction(kind: string, result: Remote<seq<string>>) returns (calls: seq<ActionCall>, notified: bool)
      modifies this
      ensures !HasId(messageId) ==> calls == [] && !notified && unchanged(this)
      ensures HasId(messageId) ==> calls == [ReactCall(messageId.value, kind)]
      ensures HasId(messageId) && result.Ok? ==> localReactions == result.value && notified
      ensures !(HasId(messageId) && result.Ok?) ==> localReactions == old(localReactions) && !notified
      ensures localBookmarked == old(localBookmarked) && messageId == old(messageId)
    {
      if !HasId(messageId) {
        return [], false;
      }
      calls := [ReactCall(messageId.value, kind)];
      notified := false;
      if result.Ok? {
        localReactions := result.value;
        notified := true;
      }
    }
  }
}
