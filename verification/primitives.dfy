/** The library routines the script calls but does not define.

    `fuzz.ratio`, `str.lower` and the Unicode character classes behind
    `str.split()` and the regular expression `\w` live in third-party code
    and in Unicode tables. The model keeps them abstract: they are the fields
    of a `Primitives` value that every operation takes as a parameter, so each
    property proved below holds for every choice of them. */
module Primitives {

  datatype Primitives = Primitives(
    ratio: (string, string) -> int,   // fuzz.ratio
    lower: string -> string,          // str.lower
    isSpace: char -> bool,            // the separators of str.split()
    isWordChar: char -> bool          // the class \w of the re module
  )

  /** The one thing the script assumes of the similarity score: it is a
      percentage. Stated as a predicate and required only where it matters. */
  ghost predicate RatioBounded(prims: Primitives) {
    forall a, b :: 0 <= prims.ratio(a, b) <= 100
  }

  /** Identical (lower-cased) strings score 100. */
  ghost predicate RatioReflexive(prims: Primitives) {
    forall a :: prims.ratio(a, a) == 100
  }

  /** The case-insensitive score of a token against a keyword. */
  function Score(prims: Primitives, word: string, keyword: string): int {
    prims.ratio(prims.lower(word), prims.lower(keyword))
  }

  /** The threshold test shared by qualification and by listing. */
  predicate Accepts(prims: Primitives, word: string, keyword: string, threshold: int) {
    Score(prims, word, keyword) >= threshold
  }

  /** The test is inclusive: a word passes at a threshold equal to its
      score, and fails once the threshold is above it. */
  lemma ThresholdIsInclusive(prims: Primitives, word: string, keyword: string)
    ensures Accepts(prims, word, keyword, Score(prims, word, keyword))
    ensures !Accepts(prims, word, keyword, Score(prims, word, keyword) + 1)
  {
  }

  /** The test ignores case: words with the same lower-case form, tested
      against keywords with the same lower-case form, pass or fail together. */
  lemma CaseInsensitive(prims: Primitives, w1: string, w2: string, k1: string, k2: string, threshold: int)
    requires prims.lower(w1) == prims.lower(w2) && prims.lower(k1) == prims.lower(k2)
    ensures Accepts(prims, w1, k1, threshold) <==> Accepts(prims, w2, k2, threshold)
  {
  }

}
