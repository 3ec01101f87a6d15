/** The pure part of `search_files` (VRGL.py, lines 40-77): for each file
    that was read, select the region, test every keyword, and write a block
    only when all are present. */
module Scan {
  import opened Options
  import opened Primitives
  import opened Tokenize
  import opened Partition
  import opened Fuzzy
  import opened Matches
  import opened Report

  /** A file as the scan sees it once read: its path and its text. */
  datatype SourceFile = SourceFile(path: string, content: string)

  /** The block written for one file, or nothing for a file that misses a
      keyword (no partial report). */
  function ScanFile(prims: Primitives, file: SourceFile, selector: string, keywords: seq<string>, threshold: int)
    : (block: Option<string>)
    ensures block.Some? ==> |block.value| > 0
  {
    var region := SelectRegion(file.content, selector);
    if Qualifies(prims, region, keywords, threshold) then
      Some(Block(file.path, selector, Listing(prims, region, keywords, threshold)))
    else None
  }

  /** A file writes a block exactly when every keyword is found in its
      selected region. */
  lemma WritesExactlyWhenQualified(prims: Primitives, file: SourceFile, selector: string,
                                   keywords: seq<string>, threshold: int)
    ensures ScanFile(prims, file, selector, keywords, threshold).Some? <==>
      forall i :: 0 <= i < |keywords| ==> FuzzySearch(prims, SelectRegion(file.content, selector), keywords[i], threshold)
  {
  }

  /** The block written for a qualifying file is the header, the listing
      of the selected region, and a blank line. */
  lemma WrittenBlock(prims: Primitives, file: SourceFile, selector: string, keywords: seq<string>, threshold: int)
    requires ScanFile(prims, file, selector, keywords, threshold).Some?
    ensures ScanFile(prims, file, selector, keywords, threshold).value
            == Header(file.path, selector)
               + FormatListing(Listing(prims, SelectRegion(file.content, selector), keywords, threshold))
               + "\n"
  {
  }

  /** Inside a written block, the lines for the `i`-th keyword follow those
      of the keywords before it and precede those of the keywords after it,
      and are exactly the lines of that keyword's own matches. */
  lemma WrittenGroup(prims: Primitives, file: SourceFile, selector: string, keywords: seq<string>,
                     threshold: int, i: nat)
    requires i < |keywords|
    ensures var region := SelectRegion(file.content, selector);
      ScanFile(prims, file, selector, keywords, threshold).Some? ==>
      ScanFile(prims, file, selector, keywords, threshold).value
      == Header(file.path, selector)
         + (FormatListing(Listing(prims, region, keywords[..i], threshold))
            + FormatListing(Occurrences(prims, region, keywords[i], threshold))
            + FormatListing(Listing(prims, region, keywords[i + 1..], threshold)))
         + "\n"
  {
    var region := SelectRegion(file.content, selector);
    var front := Listing(prims, region, keywords[..i], threshold);
    var occs := Occurrences(prims, region, keywords[i], threshold);
    var back := Listing(prims, region, keywords[i + 1..], threshold);
    if ScanFile(prims, file, selector, keywords, threshold).Some? {
      WrittenBlock(prims, file, selector, keywords, threshold);
    }
    ListingAround(prims, region, keywords, threshold, i);
    FormatListingThree(front, occs, back);
  }

  /** The scan of one file, as a function of the file. */
  function Scanner(prims: Primitives, selector: string, keywords: seq<string>, threshold: int)
    : SourceFile -> Option<string>
  {
    file => ScanFile(prims, file, selector, keywords, threshold)
  }

  /** `f` applied to each element, in order. */
  function Map<A, B>(f: A -> B, s: seq<A>): (r: seq<B>)
    ensures |r| == |s| && forall i :: 0 <= i < |s| ==> r[i] == f(s[i])
  {
    seq(|s|, i requires 0 <= i < |s| => f(s[i]))
  }

  lemma MapAppend<A, B>(f: A -> B, a: seq<A>, b: seq<A>)
    ensures Map(f, a + b) == Map(f, a) + Map(f, b)
  {
  }

  /** What each file contributes, in discovery order. */
  function Blocks(prims: Primitives, files: seq<SourceFile>, selector: string, keywords: seq<string>, threshold: int)
    : seq<Option<string>>
  {
    Map(Scanner(prims, selector, keywords, threshold), files)
  }

  /** The written blocks one after the other; a file without a block adds
      nothing. */
  function Joined(blocks: seq<Option<string>>): string {
    if blocks == [] then "" else Written(blocks[0]) + Joined(blocks[1..])
  }

  /** The text one file contributes. */
  function Written(block: Option<string>): string {
    match block
    case None => ""
    case Some(text) => text
  }

  /** Everything the scan writes for the files in discovery order: the
      blocks of the qualifying files, one after the other. */
  function ScanOutput(prims: Primitives, files: seq<SourceFile>, selector: string, keywords: seq<string>, threshold: int)
    : string
  {
    Joined(Blocks(prims, files, selector, keywords, threshold))
  }

  lemma {:induction false} JoinedAppend(a: seq<Option<string>>, b: seq<Option<string>>)
    ensures Joined(a + b) == Joined(a) + Joined(b)
  {
    if a == [] {
      assert a + b == b;
    } else {
      assert (a + b)[0] == a[0] && (a + b)[1..] == a[1..] + b;
      JoinedAppend(a[1..], b);
      var first := Written(a[0]);
      assert Joined(a + b) == first + (Joined(a[1..]) + Joined(b));
      assert Joined(a) == first + Joined(a[1..]);
    }
  }

  lemma {:induction false} JoinedEmpty(blocks: seq<Option<string>>)
    ensures |Joined(blocks)| == 0 <==> forall i :: 0 <= i < |blocks| ==> blocks[i].None? || |blocks[i].value| == 0
  {
    if blocks != [] {
      JoinedEmpty(blocks[1..]);
      assert forall i :: 1 <= i < |blocks| ==> blocks[i] == blocks[1..][i - 1];
    }
  }

  /** Blocks are appended as files are processed: the output for two runs
      of files is the output of the first followed by that of the second. */
  lemma ScanOutputAppend(prims: Primitives, a: seq<SourceFile>, b: seq<SourceFile>,
                         selector: string, keywords: seq<string>, threshold: int)
    ensures ScanOutput(prims, a + b, selector, keywords, threshold)
            == ScanOutput(prims, a, selector, keywords, threshold) + ScanOutput(prims, b, selector, keywords, threshold)
  {
    var scan := Scanner(prims, selector, keywords, threshold);
    MapAppend(scan, a, b);
    JoinedAppend(Map(scan, a), Map(scan, b));
  }

  /** Nothing is written exactly when no file qualifies. */
  lemma NothingWritten(prims: Primitives, files: seq<SourceFile>, selector: string,
                       keywords: seq<string>, threshold: int)
    ensures |ScanOutput(prims, files, selector, keywords, threshold)| == 0
            <==> forall i :: 0 <= i < |files| ==> ScanFile(prims, files[i], selector, keywords, threshold).None?
  {
    JoinedEmpty(Blocks(prims, files, selector, keywords, threshold));
  }

  /** A file that misses one keyword adds nothing to the output. */
  lemma MissingKeywordWritesNothing(prims: Primitives, file: SourceFile, selector: string,
                                    keywords: seq<string>, threshold: int, i: nat)
    requires i < |keywords|
    requires !FuzzySearch(prims, SelectRegion(file.content, selector), keywords[i], threshold)
    ensures ScanFile(prims, file, selector, keywords, threshold) == None
    ensures ScanOutput(prims, [file], selector, keywords, threshold) == ""
  {
    NothingWritten(prims, [file], selector, keywords, threshold);
  }

  /** An unrecognised selector finds and lists exactly what `"all"` does;
      only the "Searched in" line, which repeats the selector, differs. */
  lemma UnknownSelectorScansAll(prims: Primitives, file: SourceFile, selector: string,
                                keywords: seq<string>, threshold: int)
    requires selector !in {"beginning", "middle", "end"}
    ensures ScanFile(prims, file, selector, keywords, threshold).Some?
            == ScanFile(prims, file, "all", keywords, threshold).Some?
    ensures ScanFile(prims, file, selector, keywords, threshold).Some? ==>
            ScanFile(prims, file, selector, keywords, threshold).value
            == Block(file.path, selector, Listing(prims, file.content, keywords, threshold))
  {
    UnknownSelectorMeansAll(file.content, selector);
  }

}
