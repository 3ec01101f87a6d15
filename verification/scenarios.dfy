/** Concrete instances of the library routines, and the behaviour the scan
    shows with them on small inputs. */
module Scenarios {
  import opened Options
  import opened Primitives
  import opened Tokenize
  import opened Partition
  import opened Fuzzy
  import opened Matches
  import opened Report
  import opened Scan

  /** A similarity that only recognises identical strings. */
  function SameOrNothing(a: string, b: string): int {
    if a == b then 100 else 0
  }

  /** Lower-casing of the ASCII letters. */
  function AsciiLower(s: string): (r: string)
    ensures |r| == |s|
  {
    seq(|s|, k requires 0 <= k < |s| => if 'A' <= s[k] <= 'Z' then (s[k] as int + 32) as char else s[k])
  }

  predicate IsBlank(c: char) {
    c == ' '
  }

  predicate IsLetter(c: char) {
    'a' <= c <= 'z' || 'A' <= c <= 'Z'
  }

  /** Exact, case-insensitive matching on ASCII text. */
  const Exact: Primitives := Primitives(SameOrNothing, AsciiLower, IsBlank, IsLetter)

  /** "e-mail" has no blank, so it is one non-blank run. */
  lemma MailNonBlankRuns()
    ensures Runs("e-mail", NonSpace(IsBlank)) == [Span(0, 6)]
  {
    var text := "e-mail";
    var spans := [Span(0, 6)];
    assert IsRun(text, NonSpace(IsBlank), spans[0]);
    forall k | 0 <= k < |text|
      ensures Covers(spans, k)
    {
      assert spans[0].start <= k < spans[0].end;
    }
    DecompositionUnique(text, NonSpace(IsBlank), spans);
  }

  /** So it is a single whitespace token. */
  lemma MailWhitespaceTokens()
    ensures SplitWhitespace(Exact, "e-mail") == ["e-mail"]
  {
    var text := "e-mail";
    MailNonBlankRuns();
    assert Exact.isSpace == IsBlank;
    assert text[0..6] == text;
    var words := Slices(text, [Span(0, 6)]);
    assert |words| == 1 && words[0] == text;
  }

  /** The hyphen is not a word character, so "e-mail" has two word runs. */
  lemma MailWordRuns()
    ensures WordRuns(Exact, "e-mail") == [Span(0, 1), Span(2, 6)]
  {
    var text := "e-mail";
    var spans := [Span(0, 1), Span(2, 6)];
    assert IsRun(text, IsLetter, spans[0]) && IsRun(text, IsLetter, spans[1]);
    forall k | 0 <= k < |text| && IsLetter(text[k])
      ensures Covers(spans, k)
    {
      var n := if k < 1 then 0 else 1;
      assert spans[n].start <= k < spans[n].end;
    }
    DecompositionUnique(text, IsLetter, spans);
  }

  /** The whitespace token "e-mail" matches the keyword "e-mail". */
  lemma MailQualifies()
    ensures Qualifies(Exact, "e-mail", ["e-mail"], 80)
  {
    MailWhitespaceTokens();
    assert Accepts(Exact, "e-mail", "e-mail", 80);
    assert FuzzySearch(Exact, "e-mail", "e-mail", 80);
  }

  /** Neither word run, "e" nor "mail", passes for the keyword "e-mail". */
  lemma MailAcceptsNothing()
    ensures AcceptedSpans(Exact, "e-mail", "e-mail", 80, [Span(0, 1), Span(2, 6)]) == []
  {
    var text := "e-mail";
    var spans := [Span(0, 1), Span(2, 6)];
    assert !Accepts(Exact, "e", "e-mail", 80) && !Accepts(Exact, "mail", "e-mail", 80);
    assert text == "e" + "-" + "mail";
    assert Token(text, spans[0]) == "e";
    assert Token(text, spans[1]) == "mail";
    assert spans[1..] == [Span(2, 6)] && spans[1..][1..] == [];
    assert AcceptedSpans(Exact, text, text, 80, spans[1..]) == [];
  }

  /** So nothing is listed for it. */
  lemma MailListsNothing()
    ensures Occurrences(Exact, "e-mail", "e-mail", 80) == []
  {
    MailWordRuns();
    MailAcceptsNothing();
  }

  /** With exact-match scoring, the two tokenisers diverge: "e-mail" is one
      whitespace token, which matches the keyword "e-mail", so the file
      qualifies; but its word runs are "e" and "mail", neither of which
      matches exactly, so the block written for it lists no occurrence. */
  lemma QualifiedButUnlisted()
    ensures Qualifies(Exact, "e-mail", ["e-mail"], 80)
    ensures Occurrences(Exact, "e-mail", "e-mail", 80) == []
    ensures ScanFile(Exact, SourceFile("mail.txt", "e-mail"), "all", ["e-mail"], 80)
            == Some(Block("mail.txt", "all", []))
  {
    MailQualifies();
    MailListsNothing();
    assert Listing(Exact, "e-mail", ["e-mail"], 80) == [];
  }

  const Fox: string := "The quick brown fox"
  const FoxSpans: seq<Span> := [Span(0, 3), Span(4, 9), Span(10, 15), Span(16, 19)]

  /** Each of the four spans is a maximal letter run. */
  lemma FoxSpansAreRuns()
    ensures forall n :: 0 <= n < |FoxSpans| ==> IsRun(Fox, IsLetter, FoxSpans[n])
  {
    FoxFirstRuns();
    FoxLastRuns();
  }

  lemma FoxFirstRuns()
    ensures IsRun(Fox, IsLetter, Span(0, 3)) && IsRun(Fox, IsLetter, Span(4, 9))
  {
  }

  lemma FoxLastRuns()
    ensures IsRun(Fox, IsLetter, Span(10, 15)) && IsRun(Fox, IsLetter, Span(16, 19))
  {
  }

  /** Every letter lies in one of the four spans. */
  lemma FoxSpansCover()
    ensures forall k :: 0 <= k < |Fox| && IsLetter(Fox[k]) ==> Covers(FoxSpans, k)
  {
    forall k | 0 <= k < |Fox| && IsLetter(Fox[k])
      ensures Covers(FoxSpans, k)
    {
      var n := if k < 3 then 0 else if k < 9 then 1 else if k < 15 then 2 else 3;
      assert FoxSpans[n].start <= k < FoxSpans[n].end;
    }
  }

  /** Blanks at 3, 9 and 15 separate four letter runs. */
  lemma FoxLetterRuns()
    ensures Runs(Fox, IsLetter) == FoxSpans
  {
    FoxDecomposition();
    DecompositionUnique(Fox, IsLetter, FoxSpans);
  }

  /** The four spans meet the reference description of the letter runs. */
  lemma FoxDecomposition()
    ensures IsRunDecomposition(Fox, IsLetter, FoxSpans)
  {
    FoxSpansAreRuns();
    FoxSpansCover();
    FoxSpansAscending();
  }

  lemma FoxSpansAscending()
    ensures Ascending(FoxSpans)
  {
  }

  /** In this text the non-blank characters are the letters, so its
      non-blank runs are its letter runs. */
  lemma FoxNonBlankRuns()
    ensures Runs(Fox, NonSpace(IsBlank)) == Runs(Fox, IsLetter)
  {
    forall k | 0 <= k < |Fox|
      ensures NonSpace(IsBlank)(Fox[k]) <==> IsLetter(Fox[k])
    {
      assert NonSpace(IsBlank)(Fox[k]) <==> !IsBlank(Fox[k]);
    }
    RunsRespectClass(Fox, NonSpace(IsBlank), IsLetter);
  }

  /** The text of the four runs. */
  lemma FoxWords()
    ensures Fox[0..3] == "The" && Fox[4..9] == "quick" && Fox[10..15] == "brown" && Fox[16..19] == "fox"
  {
    var f := "The" + " " + "quick" + " " + "brown" + " " + "fox";
    assert Fox == f;
    assert f[0..3] == "The";
    assert f[4..9] == "quick";
    assert f[10..15] == "brown";
    assert f[16..19] == "fox";
  }

  /** The texts of the four runs. */
  lemma FoxSlices()
    ensures Slices(Fox, FoxSpans) == ["The", "quick", "brown", "fox"]
  {
    FoxWords();
    var words := Slices(Fox, FoxSpans);
    assert words[0] == "The" && words[1] == "quick" && words[2] == "brown" && words[3] == "fox";
  }

  /** The four whitespace tokens of the text: the texts of its four runs. */
  lemma FoxTokens()
    ensures SplitWhitespace(Exact, Fox) == ["The", "quick", "brown", "fox"]
  {
    FoxNonBlankRuns();
    FoxLetterRuns();
    FoxSlices();
  }

  const Turtle: string := "slow turtle"
  const TurtleSpans: seq<Span> := [Span(0, 4), Span(5, 11)]

  /** One blank separates two letter runs. */
  lemma TurtleLetterRuns()
    ensures Runs(Turtle, IsLetter) == TurtleSpans
  {
    assert IsRun(Turtle, IsLetter, TurtleSpans[0]);
    assert IsRun(Turtle, IsLetter, TurtleSpans[1]);
    forall k | 0 <= k < |Turtle| && IsLetter(Turtle[k])
      ensures Covers(TurtleSpans, k)
    {
      var n := if k < 4 then 0 else 1;
      assert TurtleSpans[n].start <= k < TurtleSpans[n].end;
    }
    DecompositionUnique(Turtle, IsLetter, TurtleSpans);
  }

  /** In this text too the non-blank characters are the letters. */
  lemma TurtleNonBlankRuns()
    ensures Runs(Turtle, NonSpace(IsBlank)) == Runs(Turtle, IsLetter)
  {
    forall k | 0 <= k < |Turtle|
      ensures NonSpace(IsBlank)(Turtle[k]) <==> IsLetter(Turtle[k])
    {
      assert NonSpace(IsBlank)(Turtle[k]) <==> !IsBlank(Turtle[k]);
    }
    RunsRespectClass(Turtle, NonSpace(IsBlank), IsLetter);
  }

  /** The texts of the two runs. */
  lemma TurtleSlices()
    ensures Slices(Turtle, TurtleSpans) == ["slow", "turtle"]
  {
    var t := "slow" + " " + "turtle";
    assert Turtle == t && t[0..4] == "slow" && t[5..11] == "turtle";
    var words := Slices(Turtle, TurtleSpans);
    assert words[0] == "slow" && words[1] == "turtle";
  }

  /** "slow turtle" splits into two tokens: the texts of its two runs. */
  lemma TurtleTokens()
    ensures SplitWhitespace(Exact, Turtle) == ["slow", "turtle"]
  {
    TurtleNonBlankRuns();
    TurtleLetterRuns();
    TurtleSlices();
  }

  /** Neither "slow" nor "turtle" is "quick". */
  lemma TurtleMissesQuick()
    ensures !FuzzySearch(Exact, Turtle, "quick", 80)
  {
    TurtleTokens();
    assert !Accepts(Exact, "slow", "quick", 80);
    assert !Accepts(Exact, "turtle", "quick", 80);
  }

  /** So the second file is skipped. */
  lemma TurtleSkipped()
    ensures ScanFile(Exact, SourceFile("b.txt", Turtle), "all", ["quick", "fox"], 80) == None
  {
    TurtleMissesQuick();
    assert SelectRegion(Turtle, "all") == Turtle;
    MissingKeywordWritesNothing(Exact, SourceFile("b.txt", Turtle), "all", ["quick", "fox"], 80, 0);
  }

  /** The regular expression finds the same four runs. */
  lemma FoxWordRuns()
    ensures WordRuns(Exact, Fox) == FoxSpans
  {
    FoxLetterRuns();
  }

  /** Exact, case-insensitive scores of the four words. */
  lemma FoxScores()
    ensures !Accepts(Exact, "The", "quick", 80) && Accepts(Exact, "quick", "quick", 80)
    ensures !Accepts(Exact, "brown", "quick", 80) && !Accepts(Exact, "fox", "quick", 80)
    ensures !Accepts(Exact, "The", "fox", 80) && !Accepts(Exact, "quick", "fox", 80)
    ensures !Accepts(Exact, "brown", "fox", 80) && Accepts(Exact, "fox", "fox", 80)
  {
    assert AsciiLower("The")[0] == 't';
    assert AsciiLower("brown")[0] == 'b';
    assert AsciiLower("quick")[0] == 'q';
  }

  /** The texts of the four runs, as tokens. */
  lemma FoxTokenTexts()
    ensures Token(Fox, FoxSpans[0]) == "The" && Token(Fox, FoxSpans[1]) == "quick"
    ensures Token(Fox, FoxSpans[2]) == "brown" && Token(Fox, FoxSpans[3]) == "fox"
  {
    FoxWords();
  }

  /** Only the second run passes for "quick". */
  lemma QuickAccepted()
    ensures AcceptedSpans(Exact, Fox, "quick", 80, FoxSpans) == [Span(4, 9)]
  {
    FoxTokenTexts();
    FoxScores();
    var s1, s2, s3 := FoxSpans[1..], FoxSpans[2..], FoxSpans[3..];
    assert s1[1..] == s2 && s2[1..] == s3 && s3[1..] == [];
    assert AcceptedSpans(Exact, Fox, "quick", 80, s3) == [];
    assert AcceptedSpans(Exact, Fox, "quick", 80, s2) == [];
    assert AcceptedSpans(Exact, Fox, "quick", 80, s1) == [Span(4, 9)];
  }

  /** Only the last run passes for "fox". */
  lemma FoxAccepted()
    ensures AcceptedSpans(Exact, Fox, "fox", 80, FoxSpans) == [Span(16, 19)]
  {
    FoxTokenTexts();
    FoxScores();
    var s1, s2, s3 := FoxSpans[1..], FoxSpans[2..], FoxSpans[3..];
    assert s1[1..] == s2 && s2[1..] == s3 && s3[1..] == [];
    assert AcceptedSpans(Exact, Fox, "fox", 80, s3) == [Span(16, 19)];
    assert AcceptedSpans(Exact, Fox, "fox", 80, s2) == [Span(16, 19)];
    assert AcceptedSpans(Exact, Fox, "fox", 80, s1) == [Span(16, 19)];
  }

  /** Each listed word's context is the whole (short) sentence. */
  lemma FoxContexts()
    ensures Context(Fox, 4, 9) == Fox && Context(Fox, 16, 19) == Fox
  {
    assert Fox[0..|Fox|] == Fox;
  }

  /** "quick" is listed once, for the run Span(4, 9). */
  lemma QuickListedAt()
    ensures Occurrences(Exact, Fox, "quick", 80) == [OccurrenceAt(Fox, "quick", Span(4, 9))]
  {
    FoxWordRuns();
    QuickAccepted();
  }

  /** "quick" is listed once, at offset 4. */
  lemma QuickListed()
    ensures Occurrences(Exact, Fox, "quick", 80) == [Occurrence("quick", "quick", 4, Fox)]
  {
    QuickListedAt();
    FoxContexts();
    FoxTokenTexts();
    assert OccurrenceAt(Fox, "quick", Span(4, 9)) == Occurrence("quick", "quick", 4, Fox);
  }

  /** "fox" is listed once, for the run Span(16, 19). */
  lemma FoxListedAt()
    ensures Occurrences(Exact, Fox, "fox", 80) == [OccurrenceAt(Fox, "fox", Span(16, 19))]
  {
    FoxWordRuns();
    FoxAccepted();
  }

  /** "fox" is listed once, at offset 16. */
  lemma FoxListed()
    ensures Occurrences(Exact, Fox, "fox", 80) == [Occurrence("fox", "fox", 16, Fox)]
  {
    FoxListedAt();
    FoxContexts();
    FoxTokenTexts();
    assert OccurrenceAt(Fox, "fox", Span(16, 19)) == Occurrence("fox", "fox", 16, Fox);
  }

  /** The token "quick" passes for the keyword "quick". */
  lemma QuickFound()
    ensures FuzzySearch(Exact, Fox, "quick", 80)
  {
    FoxTokens();
    FoxScores();
    FoundByToken(Exact, Fox, "quick", 80, "quick");
  }

  /** The token "fox" passes for the keyword "fox". */
  lemma FoxFound()
    ensures FuzzySearch(Exact, Fox, "fox", 80)
  {
    FoxTokens();
    FoxScores();
    FoundByToken(Exact, Fox, "fox", 80, "fox");
  }

  /** Both keywords are whitespace tokens of the first file. */
  lemma FoxQualifies()
    ensures Qualifies(Exact, Fox, ["quick", "fox"], 80)
  {
    QuickFound();
    FoxFound();
    var keywords := ["quick", "fox"];
    assert keywords[0] == "quick" && keywords[1] == "fox";
  }

  /** The listing for the first file: "quick" at offset 4, then "fox" at
      offset 16, each with the whole sentence as context. */
  lemma FoxListing()
    ensures Listing(Exact, Fox, ["quick", "fox"], 80)
            == [Occurrence("quick", "quick", 4, Fox), Occurrence("fox", "fox", 16, Fox)]
  {
    var keywords := ["quick", "fox"];
    QuickListed();
    FoxListed();
    assert keywords[1..] == ["fox"] && keywords[1..][1..] == [];
    assert Listing(Exact, Fox, keywords[1..], 80) == [Occurrence("fox", "fox", 16, Fox)];
  }

  /** The first file qualifies and gets its block. */
  lemma FoxBlock()
    ensures ScanFile(Exact, SourceFile("a.txt", Fox), "all", ["quick", "fox"], 80)
            == Some(Block("a.txt", "all", [Occurrence("quick", "quick", 4, Fox), Occurrence("fox", "fox", 16, Fox)]))
  {
    assert SelectRegion(Fox, "all") == Fox;
    FoxQualifies();
    FoxListing();
  }

  /** Of two files, only the first writes its block. */
  lemma OnlyFirstWrites(prims: Primitives, f: SourceFile, g: SourceFile, selector: string,
                        keywords: seq<string>, threshold: int, block: string)
    requires ScanFile(prims, f, selector, keywords, threshold) == Some(block)
    requires ScanFile(prims, g, selector, keywords, threshold) == None
    ensures ScanOutput(prims, [f, g], selector, keywords, threshold) == block
  {
    var blocks := Blocks(prims, [f, g], selector, keywords, threshold);
    assert |blocks| == 2 && blocks[0] == Some(block) && blocks[1] == None;
    JoinedPair(blocks);
  }

  /** Two files, keywords "quick" and "fox", threshold 80, whole content:
      only the first file produces a block. */
  lemma QuickBrownFoxScan()
    ensures ScanOutput(Exact, [SourceFile("a.txt", Fox), SourceFile("b.txt", Turtle)],
                       "all", ["quick", "fox"], 80)
            == Block("a.txt", "all", [Occurrence("quick", "quick", 4, Fox), Occurrence("fox", "fox", 16, Fox)])
  {
    FoxBlock();
    TurtleSkipped();
    OnlyFirstWrites(Exact, SourceFile("a.txt", Fox), SourceFile("b.txt", Turtle), "all", ["quick", "fox"], 80,
                    Block("a.txt", "all", [Occurrence("quick", "quick", 4, Fox), Occurrence("fox", "fox", 16, Fox)]));
  }

  /** A block followed by a file that writes nothing. */
  lemma JoinedPair(blocks: seq<Option<string>>)
    requires |blocks| == 2 && blocks[0].Some? && blocks[1] == None
    ensures Joined(blocks) == blocks[0].value
  {
    assert blocks[1..][1..] == [];
    assert Joined(blocks[1..]) == Written(None) + Joined([]) == "";
  }

}
