/** Tokenisation as maximal runs of a character class.

    The script tokenises twice, independently:
    - `text.split()` yields the maximal runs of non-whitespace characters;
    - `re.finditer(r'\b\w+\b', text)` yields the maximal runs of word
      characters (the match cannot start inside a run, because `\b` fails
      there, and the greedy `\w+` runs to the end of the run).
    Both are `Runs(s, p)` for a different class `p`. */
module Tokenize {
  import opened Primitives

  /** The half-open range of positions [start, end) of a string. */
  datatype Span = Span(start: nat, end: nat)

  /** `sp` is a non-empty run of `p`-characters of `s` that cannot be
      extended to the left or to the right. */
  predicate IsRun(s: string, p: char -> bool, sp: Span) {
    && sp.start < sp.end <= |s|
    && (forall k :: sp.start <= k < sp.end ==> p(s[k]))
    && (sp.start == 0 || !p(s[sp.start - 1]))
    && (sp.end == |s| || !p(s[sp.end]))
  }

  /** Each span ends strictly before the next one starts. */
  predicate Ascending(spans: seq<Span>) {
    forall a, b :: 0 <= a < b < |spans| ==> spans[a].end < spans[b].start
  }

  /** Position `k` lies inside one of the spans. */
  predicate Covers(spans: seq<Span>, k: int) {
    exists n :: 0 <= n < |spans| && spans[n].start <= k < spans[n].end
  }

  /** The reference description of a tokenisation: the spans are maximal
      runs, in left-to-right order, and every `p`-character is inside one. */
  predicate IsRunDecomposition(s: string, p: char -> bool, spans: seq<Span>) {
    && (forall n :: 0 <= n < |spans| ==> IsRun(s, p, spans[n]))
    && Ascending(spans)
    && (forall k :: 0 <= k < |s| && p(s[k]) ==> Covers(spans, k))
  }

  /** The first position at or after `i` that does not hold a `p`-character. */
  function RunEnd(s: string, p: char -> bool, i: nat): (j: nat)
    requires i <= |s|
    ensures i <= j <= |s|
    ensures forall k :: i <= k < j ==> p(s[k])
    ensures j == |s| || !p(s[j])
    decreases |s| - i
  {
    if i < |s| && p(s[i]) then RunEnd(s, p, i + 1) else i
  }

  /** The maximal runs that start at or after `i`, scanning left to right. */
  function RunsFrom(s: string, p: char -> bool, i: nat): (r: seq<Span>)
    requires i <= |s|
    requires i == 0 || !p(s[i - 1])
    ensures forall n :: 0 <= n < |r| ==> IsRun(s, p, r[n]) && i <= r[n].start
    ensures Ascending(r)
    ensures forall k :: i <= k < |s| && p(s[k]) ==> Covers(r, k)
    decreases |s| - i
  {
    if i == |s| then []
    else if !p(s[i]) then RunsFrom(s, p, i + 1)
    else
      var j := RunEnd(s, p, i + 1);
      if j == |s| then
        var r := [Span(i, j)];
        assert forall k :: i <= k < |s| && p(s[k]) ==> r[0].start <= k < r[0].end;
        r
      else
        var rest := RunsFrom(s, p, j + 1);
        PrependRun(s, p, i, j, rest);
        [Span(i, j)] + rest
  }

  /** A run [i, j) followed by the runs found after it is again a valid
      left-to-right list of runs covering everything from `i` on. */
  lemma PrependRun(s: string, p: char -> bool, i: nat, j: nat, rest: seq<Span>)
    requires i < j < |s|
    requires i == 0 || !p(s[i - 1])
    requires forall k :: i <= k < j ==> p(s[k])
    requires !p(s[j])
    requires forall n :: 0 <= n < |rest| ==> IsRun(s, p, rest[n]) && j + 1 <= rest[n].start
    requires Ascending(rest)
    requires forall k :: j + 1 <= k < |s| && p(s[k]) ==> Covers(rest, k)
    ensures var r := [Span(i, j)] + rest;
      && (forall n :: 0 <= n < |r| ==> IsRun(s, p, r[n]) && i <= r[n].start)
      && Ascending(r)
      && (forall k :: i <= k < |s| && p(s[k]) ==> Covers(r, k))
  {
    var r := [Span(i, j)] + rest;
    assert IsRun(s, p, r[0]);
    forall n | 1 <= n < |r|
      ensures r[n] == rest[n - 1]
    {
    }
    forall k | i <= k < |s| && p(s[k])
      ensures Covers(r, k)
    {
      if k < j {
        assert r[0].start <= k < r[0].end;
      } else {
        var n :| 0 <= n < |rest| && rest[n].start <= k < rest[n].end;
        assert r[n + 1] == rest[n];
      }
    }
  }

  /** All maximal runs of `p`-characters of `s`, in order. */
  function Runs(s: string, p: char -> bool): (r: seq<Span>)
    ensures IsRunDecomposition(s, p, r)
  {
    RunsFrom(s, p, 0)
  }

  /** Two maximal runs that share a position are the same run. */
  lemma RunsSharingAPositionAreEqual(s: string, p: char -> bool, a: Span, b: Span, k: int)
    requires IsRun(s, p, a) && IsRun(s, p, b)
    requires a.start <= k < a.end && b.start <= k < b.end
    ensures a == b
  {
  }

  /** A decomposition lists every maximal run. */
  lemma RunInDecomposition(s: string, p: char -> bool, spans: seq<Span>, sp: Span)
    requires IsRunDecomposition(s, p, spans)
    requires IsRun(s, p, sp)
    ensures sp in spans
  {
    assert p(s[sp.start]);
    assert Covers(spans, sp.start);
    var n :| 0 <= n < |spans| && spans[n].start <= sp.start < spans[n].end;
    RunsSharingAPositionAreEqual(s, p, spans[n], sp, sp.start);
  }

  /** Every span of a non-empty list of spans with positive width. */
  predicate NonEmptySpans(spans: seq<Span>) {
    forall n :: 0 <= n < |spans| ==> spans[n].start < spans[n].end
  }

  /** In an ascending list, the head is the leftmost span and no later span
      equals it. */
  lemma AscendingHead(a: seq<Span>, x: Span)
    requires Ascending(a) && NonEmptySpans(a)
    requires x in a
    ensures a[0].start <= x.start
    ensures x in a[1..] ==> a[0].end < x.start && x != a[0]
  {
    var i :| 0 <= i < |a| && a[i] == x;
    if x in a[1..] {
      var k :| 1 <= k < |a| && a[k] == x;
      assert a[0].end < a[k].start;
    }
  }

  /** Removing equal heads from two lists with the same elements leaves
      tails with the same elements. */
  lemma SameTails(a: seq<Span>, b: seq<Span>)
    requires Ascending(a) && Ascending(b) && NonEmptySpans(a) && NonEmptySpans(b)
    requires a != [] && b != [] && a[0] == b[0]
    requires forall x :: x in a <==> x in b
    ensures forall x :: x in a[1..] <==> x in b[1..]
  {
    forall x
      ensures x in a[1..] <==> x in b[1..]
    {
      if x in a[1..] {
        AscendingHead(a, x);
        assert x in a;
        AscendingHead(b, x);
        assert x != b[0];
        assert b == [b[0]] + b[1..];
      }
      if x in b[1..] {
        AscendingHead(b, x);
        assert x in b;
        AscendingHead(a, x);
        assert x != a[0];
        assert a == [a[0]] + a[1..];
      }
    }
  }

  /** A list with no element is empty. */
  lemma EmptyWhenNoElement<T>(s: seq<T>)
    requires forall x :: x !in s
    ensures s == []
  {
    if s != [] {
      HeadIsElement(s);
    }
  }

  lemma HeadIsElement<T>(s: seq<T>)
    requires s != []
    ensures s[0] in s
  {
  }

  /** Two ascending lists of non-empty spans with the same elements are equal. */
  lemma {:induction false} AscendingSameElements(a: seq<Span>, b: seq<Span>)
    requires Ascending(a) && Ascending(b) && NonEmptySpans(a) && NonEmptySpans(b)
    requires forall x :: x in a <==> x in b
    ensures a == b
  {
    if a == [] {
      EmptyWhenNoElement(b);
    } else {
      assert a[0] in a;
      assert b != [];
      assert b[0] in b;
      AscendingHead(a, b[0]);
      AscendingHead(b, a[0]);
      assert a[0].start == b[0].start;
      assert a == [a[0]] + a[1..];
      assert a[0] == b[0];
      SameTails(a, b);
      AscendingSameElements(a[1..], b[1..]);
      assert a == [a[0]] + a[1..];
      assert b == [b[0]] + b[1..];
    }
  }

  /** The run decomposition of a string is unique: `Runs` is the only list
      meeting the reference description. */
  lemma DecompositionUnique(s: string, p: char -> bool, spans: seq<Span>)
    requires IsRunDecomposition(s, p, spans)
    ensures spans == Runs(s, p)
  {
    var r := Runs(s, p);
    forall x
      ensures x in spans <==> x in r
    {
      if x in spans {
        var n :| 0 <= n < |spans| && spans[n] == x;
        RunInDecomposition(s, p, r, x);
      }
      if x in r {
        var n :| 0 <= n < |r| && r[n] == x;
        RunInDecomposition(s, p, spans, x);
      }
    }
    AscendingSameElements(spans, r);
  }

  /** Runs only depend on which characters of the string are in the class. */
  lemma RunsRespectClass(s: string, p: char -> bool, q: char -> bool)
    requires forall k :: 0 <= k < |s| ==> (p(s[k]) <==> q(s[k]))
    ensures Runs(s, p) == Runs(s, q)
  {
    var r := Runs(s, p);
    forall n | 0 <= n < |r|
      ensures IsRun(s, q, r[n])
    {
      assert IsRun(s, p, r[n]);
    }
    DecompositionUnique(s, q, r);
  }

  /** The text of each span. */
  function Slices(s: string, spans: seq<Span>): (words: seq<string>)
    requires forall n :: 0 <= n < |spans| ==> spans[n].start <= spans[n].end <= |s|
    ensures |words| == |spans|
    ensures forall n :: 0 <= n < |spans| ==> words[n] == s[spans[n].start..spans[n].end]
  {
    seq(|spans|, n requires 0 <= n < |spans| => s[spans[n].start..spans[n].end])
  }

  /** The class of characters `str.split()` keeps. */
  function NonSpace(isSpace: char -> bool): (p: char -> bool)
    ensures forall c :: p(c) <==> !isSpace(c)
  {
    c => !isSpace(c)
  }

  /** `str.split()` with no separator: the texts of the maximal
      non-whitespace runs, left to right. */
  function SplitWhitespace(prims: Primitives, text: string): (words: seq<string>)
    ensures |words| == |Runs(text, NonSpace(prims.isSpace))|
    ensures forall n :: 0 <= n < |words| ==>
      var sp := Runs(text, NonSpace(prims.isSpace))[n];
      IsRun(text, NonSpace(prims.isSpace), sp) && words[n] == text[sp.start..sp.end]
    ensures forall n :: 0 <= n < |words| ==>
      |words[n]| > 0 && forall k :: 0 <= k < |words[n]| ==> !prims.isSpace(words[n][k])
  {
    var spans := Runs(text, NonSpace(prims.isSpace));
    Slices(text, spans)
  }

  /** Conversely, the text of every maximal non-whitespace run is a token. */
  lemma EveryNonSpaceRunIsAToken(prims: Primitives, text: string, sp: Span)
    requires IsRun(text, NonSpace(prims.isSpace), sp)
    ensures text[sp.start..sp.end] in SplitWhitespace(prims, text)
  {
    var spans := Runs(text, NonSpace(prims.isSpace));
    RunInDecomposition(text, NonSpace(prims.isSpace), spans, sp);
    var n :| 0 <= n < |spans| && spans[n] == sp;
    assert SplitWhitespace(prims, text)[n] == text[sp.start..sp.end];
  }

  /** The spans `re.finditer(r'\b\w+\b', text)` matches, in order. */
  function WordRuns(prims: Primitives, text: string): (spans: seq<Span>)
    ensures IsRunDecomposition(text, prims.isWordChar, spans)
  {
    Runs(text, prims.isWordChar)
  }

}
