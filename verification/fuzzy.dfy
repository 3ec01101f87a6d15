/** The fuzzy-presence predicate `fuzzy_search` (VRGL.py, lines 18-22) and
    the all-keywords qualification rule (VRGL.py, line 63). */
module Fuzzy {
  import opened Primitives
  import opened Tokenize

  /** The loop of `fuzzy_search` over the whitespace tokens: true at the
      first token that passes the threshold, false once they run out. */
  function AnyAccepted(prims: Primitives, words: seq<string>, keyword: string, threshold: int): (found: bool)
    ensures found <==> exists i :: 0 <= i < |words| && Accepts(prims, words[i], keyword, threshold)
  {
    if words == [] then false
    else if Accepts(prims, words[0], keyword, threshold) then true
    else
      var rest := AnyAccepted(prims, words[1..], keyword, threshold);
      assert forall i :: 1 <= i < |words| ==> words[i] == words[1..][i - 1];
      rest
  }

  /** `fuzzy_search(text, keyword, threshold)`. */
  function FuzzySearch(prims: Primitives, text: string, keyword: string, threshold: int): (found: bool)
    ensures found <==> exists i :: 0 <= i < |SplitWhitespace(prims, text)|
                                  && Accepts(prims, SplitWhitespace(prims, text)[i], keyword, threshold)
  {
    AnyAccepted(prims, SplitWhitespace(prims, text), keyword, threshold)
  }

  /** Text without a non-whitespace character (the empty text included)
      contains no token, so nothing is found in it. */
  lemma BlankTextFindsNothing(prims: Primitives, text: string, keyword: string, threshold: int)
    requires forall k :: 0 <= k < |text| ==> prims.isSpace(text[k])
    ensures !FuzzySearch(prims, text, keyword, threshold)
  {
    DecompositionUnique(text, NonSpace(prims.isSpace), []);
  }

  /** Lowering the threshold never rejects a text a higher one accepted. */
  lemma FuzzySearchMonotone(prims: Primitives, text: string, keyword: string, t1: int, t2: int)
    requires t2 <= t1
    requires FuzzySearch(prims, text, keyword, t1)
    ensures FuzzySearch(prims, text, keyword, t2)
  {
  }

  /** With a percentage score, threshold 0 (or less) accepts exactly the
      texts that contain a non-whitespace character. */
  lemma ZeroThresholdFindsAnyToken(prims: Primitives, text: string, keyword: string, threshold: int)
    requires RatioBounded(prims)
    requires threshold <= 0
    ensures FuzzySearch(prims, text, keyword, threshold)
            <==> exists k :: 0 <= k < |text| && !prims.isSpace(text[k])
  {
    var spans := Runs(text, NonSpace(prims.isSpace));
    var words := SplitWhitespace(prims, text);
    if exists k :: 0 <= k < |text| && !prims.isSpace(text[k]) {
      var k :| 0 <= k < |text| && !prims.isSpace(text[k]);
      assert NonSpace(prims.isSpace)(text[k]);
      assert Covers(spans, k);
      assert |words| > 0;
      assert Accepts(prims, words[0], keyword, threshold);
    } else {
      BlankTextFindsNothing(prims, text, keyword, threshold);
    }
  }

  /** With a percentage score, a threshold above 100 accepts nothing. */
  lemma ThresholdAboveHundredFindsNothing(prims: Primitives, text: string, keyword: string, threshold: int)
    requires RatioBounded(prims)
    requires threshold > 100
    ensures !FuzzySearch(prims, text, keyword, threshold)
  {
  }

  /** Case-insensitive exact match: if identical strings score 100, a token
      equal to the keyword after lower-casing is found at every threshold up
      to 100. */
  lemma ExactTokenIsFound(prims: Primitives, text: string, keyword: string, threshold: int, i: nat)
    requires RatioReflexive(prims)
    requires threshold <= 100
    requires i < |SplitWhitespace(prims, text)|
    requires prims.lower(SplitWhitespace(prims, text)[i]) == prims.lower(keyword)
    ensures FuzzySearch(prims, text, keyword, threshold)
  {
    assert Accepts(prims, SplitWhitespace(prims, text)[i], keyword, threshold);
  }

  /** One token that passes is enough. */
  lemma FoundByToken(prims: Primitives, text: string, keyword: string, threshold: int, word: string)
    requires word in SplitWhitespace(prims, text)
    requires Accepts(prims, word, keyword, threshold)
    ensures FuzzySearch(prims, text, keyword, threshold)
  {
    var words := SplitWhitespace(prims, text);
    var i :| 0 <= i < |words| && words[i] == word;
  }

  /** `all(fuzzy_search(region, k, threshold) for k in keywords)`, stopping
      at the first keyword that is missing. */
  function Qualifies(prims: Primitives, region: string, keywords: seq<string>, threshold: int): (ok: bool)
    ensures ok <==> forall i :: 0 <= i < |keywords| ==> FuzzySearch(prims, region, keywords[i], threshold)
  {
    if keywords == [] then true
    else if !FuzzySearch(prims, region, keywords[0], threshold) then false
    else
      var rest := Qualifies(prims, region, keywords[1..], threshold);
      assert forall i :: 1 <= i < |keywords| ==> keywords[i] == keywords[1..][i - 1];
      rest
  }

  /** An empty keyword list qualifies every region. */
  lemma NoKeywordsQualify(prims: Primitives, region: string, threshold: int)
    ensures Qualifies(prims, region, [], threshold)
  {
  }

  /** One missing keyword disqualifies, whatever the others do. */
  lemma MissingKeywordDisqualifies(prims: Primitives, region: string, keywords: seq<string>, threshold: int, i: nat)
    requires i < |keywords|
    requires !FuzzySearch(prims, region, keywords[i], threshold)
    ensures !Qualifies(prims, region, keywords, threshold)
  {
  }

  /** Qualification is monotone in the threshold as well. */
  lemma QualifiesMonotone(prims: Primitives, region: string, keywords: seq<string>, t1: int, t2: int)
    requires t2 <= t1
    requires Qualifies(prims, region, keywords, t1)
    ensures Qualifies(prims, region, keywords, t2)
  {
    forall i | 0 <= i < |keywords|
      ensures FuzzySearch(prims, region, keywords[i], t2)
    {
      FuzzySearchMonotone(prims, region, keywords[i], t1, t2);
    }
  }

}
