/** The text block written for a qualifying file (VRGL.py, lines 65-76). */
module Report {
  import opened Options
  import opened Decimal
  import opened Matches

  /** The three header lines: the file, the selector as typed, and the
      title of the listing. */
  function Header(path: string, selector: string): (header: string)
    ensures |header| > 0 && header[|header| - 1] == '\n'
  {
    "File: " + path + "\n" + "Searched in: " + selector + "\n" + "Keywords found:\n"
  }

  /** The header can be read back line by line: "File: " and the path,
      "Searched in: " and the selector as typed, then the title line. */
  lemma HeaderLines(path: string, selector: string)
    ensures var header := Header(path, selector);
      var second := 7 + |path|;
      var typed := second + 13;
      var third := typed + |selector| + 1;
      && third <= |header|
      && header[..6] == "File: " && header[6..6 + |path|] == path && header[6 + |path|] == '\n'
      && header[second..typed] == "Searched in: " && header[typed..typed + |selector|] == selector
      && header[typed + |selector|] == '\n'
      && header[third..] == "Keywords found:\n"
  {
    var header := Header(path, selector);
    var p1 := "File: ";
    var p2 := p1 + path;
    var p3 := p2 + "\n";
    var p4 := p3 + "Searched in: ";
    var p5 := p4 + selector;
    var p6 := p5 + "\n";
    assert header == p6 + "Keywords found:\n";
    PrefixPiece(header, p6, "Keywords found:\n");
    PrefixPiece(header, p5, "\n");
    PrefixPiece(header, p4, selector);
    PrefixPiece(header, p3, "Searched in: ");
    PrefixPiece(header, p2, "\n");
    PrefixPiece(header, p1, path);
  }

  /** Peeling the last piece off a prefix: when `prefix + piece` starts
      `whole`, so does `prefix`, and `piece` follows it. */
  lemma PrefixPiece(whole: string, prefix: string, piece: string)
    requires |prefix| + |piece| <= |whole| && whole[..|prefix| + |piece|] == prefix + piece
    ensures whole[..|prefix|] == prefix && whole[|prefix|..|prefix| + |piece|] == piece
  {
    var n := |prefix|;
    var start, rest, both := whole[..n], whole[n..n + |piece|], whole[..n + |piece|];
    assert forall k :: 0 <= k < n ==> start[k] == both[k];
    assert forall k :: 0 <= k < |piece| ==> rest[k] == both[n + k];
  }

  /** Where the matched word starts in the lines of a match. */
  function WordAt(o: Occurrence): nat {
    2 + |o.keyword| + 14
  }

  /** Where the digits of the offset start in the lines of a match. */
  function PositionAt(o: Occurrence): nat {
    WordAt(o) + |o.word| + 3 + 12
  }

  /** Where the context window starts in the lines of a match. */
  function ContextAt(o: Occurrence): nat {
    PositionAt(o) + |NatToString(o.position)| + 1 + 14
  }

  /** The three lines written for one match; the last one is complete. */
  function FormatOccurrence(o: Occurrence): (entry: string)
    ensures |entry| > 0 && entry[|entry| - 1] == '\n'
  {
    "- " + o.keyword + " (matched as '" + o.word + "')\n"
    + "  Position: " + NatToString(o.position) + "\n"
    + "  Context: ..." + o.context + "...\n"
  }

  /** The first line of a match can be read back: "- ", the keyword, and
      the matched word between quotes. */
  lemma EntryFields(o: Occurrence)
    ensures var entry := FormatOccurrence(o);
      && WordAt(o) + |o.word| + 3 <= |entry|
      && entry[..2] == "- " && entry[2..2 + |o.keyword|] == o.keyword
      && entry[2 + |o.keyword|..WordAt(o)] == " (matched as '"
      && entry[WordAt(o)..WordAt(o) + |o.word|] == o.word
      && entry[WordAt(o) + |o.word|..WordAt(o) + |o.word| + 3] == "')\n"
  {
    EntryPieces(FormatOccurrence(o), o.keyword, o.word, NatToString(o.position), o.context);
  }

  /** The second line of a match holds the offset in decimal, on a line of
      its own, and reads back as the match's offset. */
  lemma EntryPosition(o: Occurrence)
    ensures var entry := FormatOccurrence(o);
      var end := PositionAt(o) + |NatToString(o.position)|;
      && end < |entry|
      && entry[PositionAt(o) - 12..PositionAt(o)] == "  Position: "
      && ParseNat(entry[PositionAt(o)..end]) == Some(o.position)
      && entry[end] == '\n'
  {
    var entry := FormatOccurrence(o);
    EntryPieces(entry, o.keyword, o.word, NatToString(o.position), o.context);
    PrintedNumberReadsBack(entry, PositionAt(o), o.position);
  }

  /** Decimal digits written at some place in a text read back as the
      number they print. */
  lemma PrintedNumberReadsBack(text: string, at: nat, n: nat)
    requires at + |NatToString(n)| <= |text| && text[at..at + |NatToString(n)|] == NatToString(n)
    ensures ParseNat(text[at..at + |NatToString(n)|]) == Some(n)
  {
    ParseNatToString(n);
  }

  /** The last line of a match holds its context window between dots, and
      nothing follows it. */
  lemma EntryContext(o: Occurrence)
    ensures var entry := FormatOccurrence(o);
      var end := PositionAt(o) + |NatToString(o.position)|;
      && ContextAt(o) + |o.context| + 4 == |entry|
      && entry[end + 1..ContextAt(o)] == "  Context: ..."
      && entry[ContextAt(o)..ContextAt(o) + |o.context|] == o.context
      && entry[ContextAt(o) + |o.context|..] == "...\n"
  {
    EntryPieces(FormatOccurrence(o), o.keyword, o.word, NatToString(o.position), o.context);
  }

  /** The pieces of three lines laid out as a match's lines are, found
      again at their offsets. */
  lemma EntryPieces(entry: string, k: string, w: string, digits: string, c: string)
    requires entry == "- " + k + " (matched as '" + w + "')\n" + "  Position: " + digits + "\n"
                      + "  Context: ..." + c + "...\n"
    ensures var wordAt := 16 + |k|;
      var positionAt := wordAt + |w| + 15;
      var end := positionAt + |digits|;
      var contextAt := end + 15;
      && contextAt + |c| + 4 == |entry|
      && entry[..2] == "- " && entry[2..2 + |k|] == k
      && entry[2 + |k|..wordAt] == " (matched as '"
      && entry[wordAt..wordAt + |w|] == w
      && entry[wordAt + |w|..wordAt + |w| + 3] == "')\n"
      && entry[wordAt + |w| + 3..positionAt] == "  Position: "
      && entry[positionAt..end] == digits
      && entry[end] == '\n' && entry[end + 1..contextAt] == "  Context: ..."
      && entry[contextAt..contextAt + |c|] == c
      && entry[contextAt + |c|..] == "...\n"
  {
    var p1 := "- ";
    var p2 := p1 + k;
    var p3 := p2 + " (matched as '";
    var p4 := p3 + w;
    var p5 := p4 + "')\n";
    var p6 := p5 + "  Position: ";
    var p7 := p6 + digits;
    var p8 := p7 + "\n";
    var p9 := p8 + "  Context: ...";
    var p10 := p9 + c;
    assert entry == p10 + "...\n";
    PrefixPiece(entry, p10, "...\n");
    PrefixPiece(entry, p9, c);
    PrefixPiece(entry, p8, "  Context: ...");
    PrefixPiece(entry, p7, "\n");
    PrefixPiece(entry, p6, digits);
    PrefixPiece(entry, p5, "  Position: ");
    PrefixPiece(entry, p4, "')\n");
    PrefixPiece(entry, p3, w);
    PrefixPiece(entry, p2, " (matched as '");
    PrefixPiece(entry, p1, k);
  }

  /** The lines of a listing, match after match; empty exactly when there
      is no match. */
  function FormatListing(occs: seq<Occurrence>): (text: string)
    ensures |text| == 0 <==> |occs| == 0
    ensures |occs| == 1 ==> text == FormatOccurrence(occs[0])
  {
    if occs == [] then "" else FormatOccurrence(occs[0]) + FormatListing(occs[1..])
  }

  /** The block: header, listing, and a blank line that separates it from
      the next block. */
  function Block(path: string, selector: string, occs: seq<Occurrence>): (block: string)
    ensures |Header(path, selector)| <= |block| && block[..|Header(path, selector)|] == Header(path, selector)
    ensures |block| >= 2 && block[|block| - 2..] == "\n\n"
  {
    var header := Header(path, selector);
    var listing := FormatListing(occs);
    assert listing != [] ==> listing[|listing| - 1] == '\n' by {
      if occs != [] {
        FormatListingEndsWithNewline(occs);
      }
    }
    Framed(header, listing)
  }

  /** Header, listing and the separating newline, once the text before the
      separator is known to end with a newline. */
  function Framed(header: string, listing: string): (block: string)
    requires |header| > 0 && header[|header| - 1] == '\n'
    requires listing != [] ==> listing[|listing| - 1] == '\n'
    ensures |header| <= |block| && block[..|header|] == header
    ensures |block| >= 2 && block[|block| - 2..] == "\n\n"
  {
    var block := header + listing + "\n";
    assert block[..|header|] == header;
    block
  }

  /** A non-empty listing ends with the newline of its last context line. */
  lemma {:induction false} FormatListingEndsWithNewline(occs: seq<Occurrence>)
    requires occs != []
    ensures |FormatListing(occs)| > 0 && FormatListing(occs)[|FormatListing(occs)| - 1] == '\n'
  {
    var tail := FormatListing(occs[1..]);
    if occs[1..] != [] {
      FormatListingEndsWithNewline(occs[1..]);
    }
    assert FormatListing(occs) == FormatOccurrence(occs[0]) + tail;
  }

  /** Writing two listings one after the other writes the listing of both. */
  lemma {:induction false} FormatListingAppend(a: seq<Occurrence>, b: seq<Occurrence>)
    ensures FormatListing(a + b) == FormatListing(a) + FormatListing(b)
  {
    if a == [] {
      assert a + b == b;
    } else {
      assert (a + b)[0] == a[0] && (a + b)[1..] == a[1..] + b;
      FormatListingAppend(a[1..], b);
      var head := FormatOccurrence(a[0]);
      assert FormatListing(a + b) == head + FormatListing(a[1..] + b);
      assert FormatListing(a) == head + FormatListing(a[1..]);
      ConcatAssociative(head, FormatListing(a[1..]), FormatListing(b));
    }
  }

  /** The text of three listings in a row is their three texts in a row. */
  lemma FormatListingThree(front: seq<Occurrence>, mid: seq<Occurrence>, back: seq<Occurrence>)
    ensures FormatListing(front + mid + back) == FormatListing(front) + FormatListing(mid) + FormatListing(back)
  {
    FormatListingAppend(front + mid, back);
    FormatListingAppend(front, mid);
  }

  /** The text of a listing is its entries' lines in order: the lines of
      the `i`-th entry come after those of the entries before it and before
      those of the entries after it. */
  lemma EntryInListing(occs: seq<Occurrence>, i: nat)
    requires i < |occs|
    ensures FormatListing(occs)
            == FormatListing(occs[..i]) + FormatOccurrence(occs[i]) + FormatListing(occs[i + 1..])
  {
    var front, back := occs[..i], occs[i + 1..];
    SplitAt(occs, i);
    FormatListingThree(front, [occs[i]], back);
  }

}
