/** Python's `str.split()` with no separator, and an independent
    definition, read from the end, of the last word it yields. */
module Words {
  import opened Wrappers

  /** The characters `str.isspace()` accepts, which `str.split()` splits on. */
  predicate IsSpace(c: char) {
    || c == ' '
    || ('\t' <= c <= '\r')
    || ('\U{1c}' <= c <= '\U{1f}')
    || c == '\U{85}' || c == '\U{a0}' || c == '\U{1680}'
    || ('\U{2000}' <= c <= '\U{200a}')
    || c == '\U{2028}' || c == '\U{2029}' || c == '\U{202f}' || c == '\U{205f}' || c == '\U{3000}'
  }

  predicate NoSpace(s: string) {
    forall i :: 0 <= i < |s| ==> !IsSpace(s[i])
  }

  predicate AllSpace(s: string) {
    forall i :: 0 <= i < |s| ==> IsSpace(s[i])
  }

  /** Only whitespace from position `i` on. */
  predicate AllSpaceFrom(s: string, i: nat) {
    forall j :: i <= j < |s| ==> IsSpace(s[j])
  }

  /** A half-open range `[start, stop)` of positions in a string. */
  datatype Span = Span(start: nat, stop: nat)

  /** What `str.split()` yields: a non-empty run without whitespace. */
  predicate IsWord(w: string) {
    w != [] && NoSpace(w)
  }

  /** The number of non-whitespace characters from position `i` on. */
  function WordAfter(s: string, i: nat): (n: nat)
    requires i <= |s|
    ensures i + n <= |s|
    ensures i < |s| && !IsSpace(s[i]) ==> n > 0
    ensures i + n < |s| ==> IsSpace(s[i + n])
    decreases |s| - i
  {
    if i == |s| || IsSpace(s[i]) then 0 else 1 + WordAfter(s, i + 1)
  }

  /** The characters `WordAfter` counts are all non-whitespace. */
  lemma {:induction false} WordAfterRun(s: string, i: nat)
    requires i <= |s|
    ensures forall j :: i <= j < i + WordAfter(s, i) ==> !IsSpace(s[j])
    decreases |s| - i
  {
    if i < |s| && !IsSpace(s[i]) {
      WordAfterRun(s, i + 1);
    }
  }

  /** `sp` covers a non-empty run of non-whitespace characters of `s`. */
  predicate IsWordSpan(s: string, sp: Span) {
    && sp.start < sp.stop <= |s|
    && forall j :: sp.start <= j < sp.stop ==> !IsSpace(s[j])
  }

  /** Where the words of `s` lie, from position `i` on: whitespace is
      skipped one character at a time, and a word is taken whole. */
  function SpansFrom(s: string, i: nat): seq<Span>
    requires i <= |s|
    decreases |s| - i
  {
    if i == |s| then
      []
    else if IsSpace(s[i]) then
      SpansFrom(s, i + 1)
    else
      var n := WordAfter(s, i);
      [Span(i, i + n)] + SpansFrom(s, i + n)
  }

  /** Every span found from `i` on is a word of `s` at or after `i`. */
  lemma {:induction false} SpansAreWords(s: string, i: nat)
    requires i <= |s|
    ensures forall sp <- SpansFrom(s, i) :: i <= sp.start && IsWordSpan(s, sp)
    decreases |s| - i
  {
    if i == |s| {
    } else if IsSpace(s[i]) {
      SpansAreWords(s, i + 1);
    } else {
      WordAfterRun(s, i);
      SpansAreWords(s, i + WordAfter(s, i));
    }
  }

  /** `s.split()`: the maximal runs of non-whitespace characters, in order. */
  function Split(s: string): (ws: seq<string>)
    ensures forall w <- ws :: IsWord(w)
  {
    var spans := SpansFrom(s, 0);
    SpansAreWords(s, 0);
    var ws := seq(|spans|, j requires 0 <= j < |spans| => s[spans[j].start..spans[j].stop]);
    assert forall j :: 0 <= j < |ws| ==> IsWord(ws[j]) by {
      forall j | 0 <= j < |ws|
        ensures IsWord(ws[j])
      {
        var sp := spans[j];
        assert sp in spans;
        assert forall m :: 0 <= m < sp.stop - sp.start ==> ws[j][m] == s[sp.start + m];
      }
    }
    ws
  }

  /** There are no more words exactly when only whitespace is left. */
  lemma {:induction false} SpansFromEmpty(s: string, i: nat)
    requires i <= |s|
    ensures |SpansFrom(s, i)| == 0 <==> AllSpaceFrom(s, i)
    decreases |s| - i
  {
    if i < |s| && IsSpace(s[i]) {
      SpansFromEmpty(s, i + 1);
    }
  }

  /** `s.split()` is empty exactly when `s` is nothing but whitespace. */
  lemma SplitEmptyIffAllSpace(s: string)
    ensures Split(s) == [] <==> AllSpace(s)
  {
    SpansFromEmpty(s, 0);
  }

  /** The number of whitespace characters just before position `e`. */
  function SpacesBefore(s: string, e: nat): (n: nat)
    requires e <= |s|
    ensures n <= e
    ensures forall i :: e - n <= i < e ==> IsSpace(s[i])
    ensures n < e ==> !IsSpace(s[e - n - 1])
  {
    if e == 0 || !IsSpace(s[e - 1]) then 0 else 1 + SpacesBefore(s, e - 1)
  }

  /** The number of non-whitespace characters just before position `e`. */
  function WordBefore(s: string, e: nat): (n: nat)
    requires e <= |s|
    ensures n <= e
    ensures forall i :: e - n <= i < e ==> !IsSpace(s[i])
    ensures n < e ==> IsSpace(s[e - n - 1])
  {
    if e == 0 || IsSpace(s[e - 1]) then 0 else 1 + WordBefore(s, e - 1)
  }

  /** Where the last word of `s` ends: before the trailing whitespace. */
  function LastWordEnd(s: string): (e: nat)
    ensures e <= |s|
  {
    |s| - SpacesBefore(s, |s|)
  }

  /** Where the last word of `s` starts. */
  function LastWordStart(s: string): (b: nat)
    ensures b <= LastWordEnd(s)
  {
    LastWordEnd(s) - WordBefore(s, LastWordEnd(s))
  }

  /** The last word of `s`, read from the end: skip trailing whitespace,
      then take the run of non-whitespace before it; `None` when nothing
      but whitespace is there. */
  function LastWord(s: string): (r: Option<string>)
    ensures r.Some? ==> IsWord(r.value)
    ensures r.None? <==> AllSpace(s)
  {
    if LastWordEnd(s) == 0 then None else Some(s[LastWordStart(s)..LastWordEnd(s)])
  }

  /** `SpacesBefore` is the only count that covers whitespace and stops at
      a non-whitespace character (or the start). */
  lemma SpacesBeforeUnique(s: string, e: nat, n: nat)
    requires n <= e <= |s|
    requires forall i :: e - n <= i < e ==> IsSpace(s[i])
    requires n < e ==> !IsSpace(s[e - n - 1])
    ensures SpacesBefore(s, e) == n
  {
  }

  /** Likewise for `WordBefore`. */
  lemma WordBeforeUnique(s: string, e: nat, n: nat)
    requires n <= e <= |s|
    requires forall i :: e - n <= i < e ==> !IsSpace(s[i])
    requires n < e ==> IsSpace(s[e - n - 1])
    ensures WordBefore(s, e) == n
  {
  }

  /** `s[b..e]` is a word with whitespace (or the start) before it and
      only whitespace after it. */
  predicate IsLastSpan(s: string, b: nat, e: nat) {
    && IsWordSpan(s, Span(b, e))
    && (b > 0 ==> IsSpace(s[b - 1]))
    && AllSpaceFrom(s, e)
  }

  /** The last word, read from the end, is the one at the last span. */
  lemma LastWordAt(s: string, b: nat, e: nat)
    requires IsLastSpan(s, b, e)
    ensures LastWordEnd(s) == e && LastWordStart(s) == b
  {
    SpacesBeforeUnique(s, |s|, |s| - e);
    WordBeforeUnique(s, e, e - b);
  }

  /** A span alone is the last one. */
  lemma LastOfOne(spans: seq<Span>, sp: Span, rest: seq<Span>)
    requires spans == [sp] + rest && |rest| == 0
    ensures |spans| > 0 && spans[|spans| - 1] == sp
  {
  }

  /** Putting a span in front keeps the last one. */
  lemma LastOfCons(spans: seq<Span>, sp: Span, rest: seq<Span>, last: Span)
    requires spans == [sp] + rest && |rest| > 0 && rest[|rest| - 1] == last
    ensures |spans| > 0 && spans[|spans| - 1] == last
  {
  }

  /** Position `i` is not inside a word. */
  predicate AtBoundary(s: string, i: nat)
    requires i <= |s|
  {
    i == 0 || i == |s| || IsSpace(s[i - 1]) || IsSpace(s[i])
  }

  /** A word at a boundary followed only by whitespace is the last span,
      and the last one found from its start. */
  lemma LastSpanAt(s: string, i: nat)
    requires i < |s| && AtBoundary(s, i) && !IsSpace(s[i])
    requires AllSpaceFrom(s, i + WordAfter(s, i))
    ensures var spans := SpansFrom(s, i);
      |spans| > 0 && spans[|spans| - 1] == Span(i, i + WordAfter(s, i))
    ensures IsLastSpan(s, i, i + WordAfter(s, i))
  {
    var n := WordAfter(s, i);
    WordAfterRun(s, i);
    SpansFromEmpty(s, i + n);
    LastOfOne(SpansFrom(s, i), Span(i, i + n), SpansFrom(s, i + n));
  }

  /** A word after whitespace (or nothing), at the end of a string, lies
      at its last span. */
  lemma LastSpanOfAppend(prefix: string, w: string)
    requires IsWord(w)
    requires prefix != [] ==> IsSpace(prefix[|prefix| - 1])
    ensures IsLastSpan(prefix + w, |prefix|, |prefix + w|)
  {
    var s, b := prefix + w, |prefix|;
    forall j | b <= j < |s|
      ensures !IsSpace(s[j])
    {
      assert s[j] == w[j - b];
    }
    if b > 0 {
      assert s[b - 1] == prefix[b - 1];
    }
  }

  /** A word after whitespace (or nothing), at the end of a string, is its
      last word. */
  lemma LastWordAfterSpace(prefix: string, w: string)
    requires IsWord(w)
    requires prefix != [] ==> IsSpace(prefix[|prefix| - 1])
    ensures LastWord(prefix + w) == Some(w)
  {
    var s, b := prefix + w, |prefix|;
    LastSpanOfAppend(prefix, w);
    LastWordAt(s, b, |s|);
    assert s[b..|s|] == s[b..] == w;
  }

  /** From a position not inside a word, the last of the spans that follow
      is the last span of `s`. */
  lemma {:induction false} LastOfSpansFrom(s: string, i: nat) returns (b: nat, e: nat)
    requires i <= |s| && AtBoundary(s, i) && !AllSpaceFrom(s, i)
    ensures var spans := SpansFrom(s, i); |spans| > 0 && spans[|spans| - 1] == Span(b, e)
    ensures IsLastSpan(s, b, e)
    decreases |s| - i
  {
    if IsSpace(s[i]) {
      b, e := LastOfSpansFrom(s, i + 1);
    } else {
      var n := WordAfter(s, i);
      if AllSpaceFrom(s, i + n) {
        LastSpanAt(s, i);
        b, e := i, i + n;
      } else {
        b, e := LastOfSpansFrom(s, i + n);
        LastOfCons(SpansFrom(s, i), Span(i, i + n), SpansFrom(s, i + n), Span(b, e));
      }
    }
  }

  /** The last word of `s` is the last element of `s.split()`; there is none
      exactly when `s.split()` is empty. */
  lemma LastWordIsLastOfSplit(s: string)
    ensures var ws := Split(s);
      LastWord(s) == if ws == [] then None else Some(ws[|ws| - 1])
  {
    SplitEmptyIffAllSpace(s);
    if !AllSpace(s) {
      var b, e := LastOfSpansFrom(s, 0);
      LastWordAt(s, b, e);
    }
  }
}
