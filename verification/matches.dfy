/** The occurrence listing of a qualifying file (VRGL.py, lines 68-75): for
    each keyword, every word-character run of the region that passes the
    threshold, with its offset and a context window. */
module Matches {
  import opened Primitives
  import opened Tokenize

  /** Characters of context kept on each side of a listed word. */
  const ContextRadius: nat := 50

  function Min(a: int, b: int): int {
    if a <= b then a else b
  }

  function Max(a: int, b: int): int {
    if a <= b then b else a
  }

  /** One listed match: the keyword, the word as it appears in the region,
      its start offset in the region, and the context window around it. */
  datatype Occurrence = Occurrence(keyword: string, word: string, position: nat, context: string)

  /** `region[max(0, start - 50) : end + 50]`; a Python slice clips an end
      past the length, written out here as the `Min`. */
  function Context(region: string, start: nat, end: nat): (ctx: string)
    requires start <= end <= |region|
    ensures |ctx| == Min(start, ContextRadius) + (end - start) + Min(|region| - end, ContextRadius)
    ensures |ctx| <= (end - start) + 2 * ContextRadius
    ensures ctx == region[start - Min(start, ContextRadius)..][..|ctx|]
    ensures ctx[Min(start, ContextRadius)..Min(start, ContextRadius) + (end - start)] == region[start..end]
  {
    var lo, hi := Max(0, start - ContextRadius), Min(|region|, end + ContextRadius);
    var ctx := region[lo..hi];
    assert lo == start - Min(start, ContextRadius) && lo <= start && end <= hi && |ctx| == hi - lo;
    SliceOfSlice(region, lo, hi, start - lo, end - lo);
    ctx
  }

  /** A slice of a slice is a slice of the original. */
  lemma SliceOfSlice(s: string, lo: nat, hi: nat, a: nat, b: nat)
    requires lo <= hi <= |s| && a <= b <= hi - lo
    ensures s[lo..hi][a..b] == s[lo + a..lo + b]
  {
    assert forall k :: 0 <= k < b - a ==> s[lo..hi][a..b][k] == s[lo + a + k];
  }

  /** Every span lies inside the region. */
  predicate InBounds(region: string, spans: seq<Span>) {
    forall n :: 0 <= n < |spans| ==> spans[n].start <= spans[n].end <= |region|
  }

  /** The text of a span. */
  function Token(region: string, sp: Span): string
    requires sp.start <= sp.end <= |region|
  {
    region[sp.start..sp.end]
  }

  /** The entry the script writes for the match at `sp`. */
  function OccurrenceAt(region: string, keyword: string, sp: Span): Occurrence
    requires sp.start <= sp.end <= |region|
  {
    Occurrence(keyword, Token(region, sp), sp.start, Context(region, sp.start, sp.end))
  }

  /** The spans whose text passes the threshold, in their original order. */
  function AcceptedSpans(prims: Primitives, region: string, keyword: string, threshold: int, spans: seq<Span>)
    : (r: seq<Span>)
    requires InBounds(region, spans)
    ensures InBounds(region, r)
    ensures forall sp :: sp in r <==> sp in spans && Accepts(prims, Token(region, sp), keyword, threshold)
    ensures Ascending(spans) ==> Ascending(r)
  {
    if spans == [] then []
    else
      var rest := AcceptedSpans(prims, region, keyword, threshold, spans[1..]);
      if Accepts(prims, Token(region, spans[0]), keyword, threshold) then
        PrependKeepsAscending(spans, rest);
        [spans[0]] + rest
      else rest
  }

  /** Putting the head of an ascending list in front of a selection of its
      tail keeps the order. */
  lemma PrependKeepsAscending(spans: seq<Span>, rest: seq<Span>)
    requires spans != []
    requires forall sp :: sp in rest ==> sp in spans[1..]
    ensures Ascending(spans) && Ascending(rest) ==> Ascending([spans[0]] + rest)
  {
    if Ascending(spans) && Ascending(rest) {
      var r := [spans[0]] + rest;
      forall a, b | 0 <= a < b < |r|
        ensures r[a].end < r[b].start
      {
        assert r[b] == rest[b - 1];
        assert rest[b - 1] in spans[1..];
        var m :| 1 <= m < |spans| && spans[m] == rest[b - 1];
        if a > 0 {
          assert r[a] == rest[a - 1];
        }
      }
    }
  }

  /** The span of the region a listed word occupies. */
  function SpanOf(o: Occurrence): Span {
    Span(o.position, o.position + |o.word|)
  }

  /** The listing for one keyword: one entry per word-character run of the
      region that passes the threshold, in the order of the region. Each
      entry carries the keyword, the run's text, its start offset and its
      context window. */
  function Occurrences(prims: Primitives, region: string, keyword: string, threshold: int)
    : (occs: seq<Occurrence>)
    ensures forall i :: 0 <= i < |occs| ==>
      && IsRun(region, prims.isWordChar, SpanOf(occs[i]))
      && occs[i] == OccurrenceAt(region, keyword, SpanOf(occs[i]))
      && Accepts(prims, occs[i].word, keyword, threshold)
    ensures forall i, j :: 0 <= i < j < |occs| ==> SpanOf(occs[i]).end < occs[j].position
  {
    var spans := AcceptedSpans(prims, region, keyword, threshold, WordRuns(prims, region));
    AcceptedWordRuns(prims, region, keyword, threshold);
    var occs := seq(|spans|, n requires 0 <= n < |spans| => OccurrenceAt(region, keyword, spans[n]));
    assert forall i :: 0 <= i < |occs| ==> SpanOf(occs[i]) == spans[i];
    occs
  }

  /** The accepted spans of the word runs are themselves word runs. */
  lemma AcceptedWordRuns(prims: Primitives, region: string, keyword: string, threshold: int)
    ensures var spans := AcceptedSpans(prims, region, keyword, threshold, WordRuns(prims, region));
      && (forall n :: 0 <= n < |spans| ==> IsRun(region, prims.isWordChar, spans[n]))
      && Ascending(spans)
  {
    var runs := WordRuns(prims, region);
    var spans := AcceptedSpans(prims, region, keyword, threshold, runs);
    forall n | 0 <= n < |spans|
      ensures IsRun(region, prims.isWordChar, spans[n])
    {
      assert spans[n] in spans;
      var m :| 0 <= m < |runs| && runs[m] == spans[n];
    }
  }

  /** Conversely, every word-character run of the region whose text passes
      the threshold is listed, at its own start offset. */
  lemma EveryAcceptedRunIsListed(prims: Primitives, region: string, keyword: string, threshold: int, sp: Span)
    requires IsRun(region, prims.isWordChar, sp)
    requires Accepts(prims, Token(region, sp), keyword, threshold)
    ensures OccurrenceAt(region, keyword, sp) in Occurrences(prims, region, keyword, threshold)
  {
    var runs := WordRuns(prims, region);
    RunInDecomposition(region, prims.isWordChar, runs, sp);
    var spans := AcceptedSpans(prims, region, keyword, threshold, runs);
    assert sp in spans;
    var n :| 0 <= n < |spans| && spans[n] == sp;
    assert Occurrences(prims, region, keyword, threshold)[n] == OccurrenceAt(region, keyword, sp);
  }

  /** Lowering the threshold keeps every listed match. */
  lemma OccurrencesMonotone(prims: Primitives, region: string, keyword: string, t1: int, t2: int, o: Occurrence)
    requires t2 <= t1
    requires o in Occurrences(prims, region, keyword, t1)
    ensures o in Occurrences(prims, region, keyword, t2)
  {
    var occs := Occurrences(prims, region, keyword, t1);
    var i :| 0 <= i < |occs| && occs[i] == o;
    EveryAcceptedRunIsListed(prims, region, keyword, t2, SpanOf(o));
  }

  /** The whole listing: the keywords' groups, in keyword-list order. */
  function Listing(prims: Primitives, region: string, keywords: seq<string>, threshold: int)
    : (occs: seq<Occurrence>)
    ensures forall i :: 0 <= i < |occs| ==> occs[i].keyword in keywords
  {
    if keywords == [] then []
    else Occurrences(prims, region, keywords[0], threshold) + Listing(prims, region, keywords[1..], threshold)
  }

  /** The listing of two keyword lists one after the other is the two
      listings one after the other. */
  lemma {:induction false} ListingAppend(prims: Primitives, region: string, a: seq<string>, b: seq<string>, threshold: int)
    ensures Listing(prims, region, a + b, threshold)
            == Listing(prims, region, a, threshold) + Listing(prims, region, b, threshold)
  {
    if a == [] {
      assert a + b == b;
    } else {
      assert (a + b)[0] == a[0] && (a + b)[1..] == a[1..] + b;
      ListingAppend(prims, region, a[1..], b, threshold);
      var head := Occurrences(prims, region, a[0], threshold);
      assert Listing(prims, region, a + b, threshold) == head + Listing(prims, region, a[1..] + b, threshold);
      assert Listing(prims, region, a, threshold) == head + Listing(prims, region, a[1..], threshold);
      ConcatAssociative(head, Listing(prims, region, a[1..], threshold), Listing(prims, region, b, threshold));
    }
  }

  /** Concatenation is associative; stated apart so that the proofs using it
      need not re-derive it element by element. */
  lemma ConcatAssociative<T>(x: seq<T>, y: seq<T>, z: seq<T>)
    ensures x + (y + z) == (x + y) + z
  {
  }

  /** A sequence is what comes before its `i`-th element, that element,
      and what comes after it. */
  lemma SplitAt<T>(s: seq<T>, i: nat)
    requires i < |s|
    ensures s == s[..i] + [s[i]] + s[i + 1..]
  {
  }

  /** The listing around the `i`-th keyword: the keywords before it, its
      own matches, the keywords after it. */
  lemma ListingAround(prims: Primitives, region: string, keywords: seq<string>, threshold: int, i: nat)
    requires i < |keywords|
    ensures Listing(prims, region, keywords, threshold)
            == Listing(prims, region, keywords[..i], threshold)
               + Occurrences(prims, region, keywords[i], threshold)
               + Listing(prims, region, keywords[i + 1..], threshold)
  {
    var before, after := keywords[..i], keywords[i + 1..];
    assert keywords == before + ([keywords[i]] + after);
    ListingAppend(prims, region, before, [keywords[i]] + after, threshold);
    ListingAppend(prims, region, [keywords[i]], after, threshold);
    assert Listing(prims, region, [keywords[i]], threshold) == Occurrences(prims, region, keywords[i], threshold) by {
      assert [keywords[i]][1..] == [];
    }
  }

  /** Where the group of the `i`-th keyword starts in the listing. */
  function GroupStart(prims: Primitives, region: string, keywords: seq<string>, threshold: int, i: nat): nat
    requires i <= |keywords|
  {
    |Listing(prims, region, keywords[..i], threshold)|
  }

  /** The listing is the keywords' own listings back to back: the `i`-th
      keyword's matches form one block, after the blocks of all earlier
      keywords and before those of all later ones. */
  lemma ListingGroups(prims: Primitives, region: string, keywords: seq<string>, threshold: int, i: nat)
    requires i < |keywords|
    ensures GroupStart(prims, region, keywords, threshold, i + 1)
            == GroupStart(prims, region, keywords, threshold, i) + |Occurrences(prims, region, keywords[i], threshold)|
            <= |Listing(prims, region, keywords, threshold)|
    ensures Listing(prims, region, keywords, threshold)
              [GroupStart(prims, region, keywords, threshold, i)..GroupStart(prims, region, keywords, threshold, i + 1)]
            == Occurrences(prims, region, keywords[i], threshold)
  {
    var before := keywords[..i];
    var after := keywords[i + 1..];
    assert keywords[..i + 1] == before + [keywords[i]];
    assert keywords == keywords[..i + 1] + after;
    ListingAppend(prims, region, before, [keywords[i]], threshold);
    ListingAppend(prims, region, keywords[..i + 1], after, threshold);
    assert Listing(prims, region, [keywords[i]], threshold) == Occurrences(prims, region, keywords[i], threshold) by {
      assert [keywords[i]][1..] == [];
    }
  }

}
