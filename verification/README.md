# VRGL keyword scan — a Dafny model

VRGL is a small script that walks a directory, reads every file with a
chosen ending, and writes a report block for each file whose content
fuzzily contains *all* of a list of keywords. The model covers the part of
the script that decides what is written:

- the three-way partition of a file's content and the choice of the
  region that is searched (`beginning`, `middle`, `end`, anything else
  meaning the whole content);
- `fuzzy_search`: split the region on whitespace and report whether some
  token, lower-cased, scores at least the threshold against the
  lower-cased keyword;
- the qualification rule: a file is reported only when every keyword is
  found;
- the report block: a header, then for each keyword in list order every
  word-character run of the region (the matches of `\b\w+\b`) that passes
  the same threshold, with its start offset and a context window of at
  most 50 characters on each side;
- the threshold prompt's acceptance rule: empty input means 80, a whole
  number from 0 to 100 is accepted, anything else asks again.

The similarity score (`fuzz.ratio`), `str.lower` and the Unicode character
classes behind `str.split()` and `\w` are library code. They are the
fields of a `Primitives` value that every operation takes as a parameter,
so every property holds for any choice of them; where a property needs
the score to be a percentage (`RatioBounded`) or identical strings to
score 100 (`RatioReflexive`), that is a precondition of the lemma.

Both tokenisers are modelled as one concept, the maximal runs of a
character class (`Tokenize.Runs`), used with two different classes:
non-whitespace for `str.split()` and word characters for the regular
expression. `Runs` is proved to be the unique list meeting a reference
description (`IsRunDecomposition`: maximal runs, left to right, covering
every character of the class). The two passes stay independent, as in the
script, and `Scenarios.QualifiedButUnlisted` shows that, with exact-match
scoring, they can disagree: the region `"e-mail"` qualifies for keyword
`"e-mail"` (one whitespace token) yet its report lists no match (the word
runs are `"e"` and `"mail"`). With the real `fuzz.ratio`, `"mail"` scores 80
against `"e-mail"` and would be listed at threshold 80; the example is about
the two tokenisers, not about that score.

`Scenarios.QuickBrownFoxScan` states the output for `a.txt` = "The quick
brown fox" and `b.txt` = "slow turtle", keywords `quick` and `fox`,
threshold 80, whole content, with exact-match scoring: one block for
`a.txt` listing `quick` at offset 4 and `fox` at offset 16, each with the
whole sentence as context, and nothing for `b.txt`. The offset is the value
of `match.start()`, the position of the match in the searched region.

Files: `options.dfy` (the `Option` type), `primitives.dfy` (library
routines and the threshold test), `tokenize.dfy` (maximal runs, both
tokenisers), `partition.dfy` (the split and region selector),
`fuzzy.dfy` (`fuzzy_search` and qualification), `matches.dfy` (the
occurrence listing and context window), `decimal.dfy` (decimal notation
of offsets and of the typed threshold), `threshold.dfy` (the prompt's
rule), `report.dfy` (the text of a block), `scan.dfy` (per-file decision
and the concatenated output), `scenarios.dfy` (concrete examples).

## Model

| member | source | states |
|---|---|---|
| Primitives.ThresholdIsInclusive | VRGL.py:20 | the threshold test is inclusive: a word passes at a threshold equal to its score and fails one above it |
| Primitives.CaseInsensitive | VRGL.py:20 | the test compares lower-case forms: words and keywords with the same lower-case forms pass or fail together |
| Partition.Split | VRGL.py:48-52 | the three parts concatenate back to the content; beginning and middle have length n / 3 (floor), the end has the rest, which is between the middle's length and two more |
| Partition.ParseSearchPart | VRGL.py:54-61 | "beginning", "middle" and "end" each select their own part and only that string selects it; the whole content is selected exactly when the selector is none of the three |
| Partition.Region | VRGL.py:54-61 | the searched region is a contiguous slice of the content at its part's start, with the part's length; the whole content for the fallback |
| Partition.SelectRegion | VRGL.py:54-61 | each of the three selectors picks its own part of the split; every other selector string picks the whole content |
| Partition.UnknownSelectorMeansAll | VRGL.py:60-61 | an unrecognised selector searches exactly what "all" searches, the whole content |
| Partition.RegionsTile | VRGL.py:48-52 | the three regions are adjacent: each starts where the previous ends, the last ends at the content's end, and together they are the content |
| Tokenize.RunEnd | VRGL.py:69 | the end of a run is the first position at or after its start that is outside the character class |
| Tokenize.RunsFrom | VRGL.py:18 | scanning from a run boundary yields maximal runs, in ascending order, covering every class character from there on |
| Tokenize.Runs | VRGL.py:18 | the tokenisation meets the reference description: maximal runs, strictly ascending, covering every character of the class |
| Tokenize.DecompositionUnique | VRGL.py:18 | any list of spans meeting the reference description is exactly the computed tokenisation |
| Tokenize.RunsRespectClass | VRGL.py:18 | the tokenisation depends only on which characters of the text are in the class |
| Tokenize.RunInDecomposition | VRGL.py:69 | every maximal run of the text is one of the spans of a run decomposition |
| Tokenize.SplitWhitespace | VRGL.py:18 | `str.split()` yields one token per maximal non-whitespace run, in order, the n-th token being the text of the n-th run; tokens are non-empty and contain no whitespace character |
| Tokenize.EveryNonSpaceRunIsAToken | VRGL.py:18 | conversely, the text of every maximal non-whitespace run of the text is one of the tokens |
| Tokenize.WordRuns | VRGL.py:69 | the matches of the word pattern are the maximal runs of word characters, in order, and cover every word character |
| Fuzzy.AnyAccepted | VRGL.py:19-22 | the loop returns true exactly when some token passes the threshold against the keyword |
| Fuzzy.FuzzySearch | VRGL.py:18-22 | `fuzzy_search` is true exactly when some whitespace token of the text, lower-cased, scores at least the threshold against the lower-cased keyword |
| Fuzzy.BlankTextFindsNothing | VRGL.py:18-22 | a text of whitespace only, the empty text included, finds no keyword |
| Fuzzy.FuzzySearchMonotone | VRGL.py:20 | a keyword found at some threshold is found at every lower threshold |
| Fuzzy.ZeroThresholdFindsAnyToken | VRGL.py:18-22 | with a percentage score, a threshold of 0 or less finds the keyword exactly when the text has a non-whitespace character |
| Fuzzy.ThresholdAboveHundredFindsNothing | VRGL.py:20 | with a percentage score, a threshold above 100 finds nothing |
| Fuzzy.FoundByToken | VRGL.py:19-21 | one whitespace token that passes the threshold is enough for the keyword to be found |
| Fuzzy.ExactTokenIsFound | VRGL.py:20 | when identical strings score 100, a token equal to the keyword up to case is found at every threshold up to 100 |
| Fuzzy.Qualifies | VRGL.py:63 | a region qualifies exactly when every keyword of the list is found in it |
| Fuzzy.NoKeywordsQualify | VRGL.py:63 | an empty keyword list qualifies every region |
| Fuzzy.MissingKeywordDisqualifies | VRGL.py:63-64 | one keyword that is not found disqualifies the region whatever the other keywords do |
| Fuzzy.QualifiesMonotone | VRGL.py:63 | a region qualifying at some threshold qualifies at every lower threshold |
| Matches.Context | VRGL.py:75 | the context window is the region slice from up to 50 characters before the word to up to 50 after it, clipped at both ends; it holds the word at offset min(start, 50) and is at most the word plus 100 characters long |
| Matches.AcceptedSpans | VRGL.py:70-72 | the filtered spans are exactly the spans whose text passes the threshold, and they stay in ascending order |
| Matches.Occurrences | VRGL.py:68-75 | every listed entry is a maximal word run of the region that passes the threshold, carrying the keyword, the run's text, its start offset and its context; entries are strictly ascending and non-overlapping |
| Matches.EveryAcceptedRunIsListed | VRGL.py:69-75 | conversely, every maximal word run whose text passes the threshold is listed, with its own offset and context |
| Matches.OccurrencesMonotone | VRGL.py:72 | an entry listed at some threshold is listed at every lower threshold |
| Matches.Listing | VRGL.py:68-75 | every entry of a file's listing names one of the keywords |
| Matches.ListingAppend | VRGL.py:68 | the listing for two keyword lists in sequence is the two listings in sequence |
| Matches.ListingAround | VRGL.py:68-75 | the listing is the listing of the keywords before the i-th, then the i-th keyword's own matches, then the listing of the keywords after it |
| Matches.ListingGroups | VRGL.py:68-75 | the listing is the keywords' own listings back to back, the i-th keyword's matches forming one contiguous group in keyword order |
| Decimal.NatToString | VRGL.py:74 | the printed offset is a non-empty string of digits with no leading zero |
| Decimal.ParseNat | VRGL.py:96 | reading a number succeeds exactly on a non-empty string of ASCII digits (the other forms `int()` reads are under Left out); a digit string without a leading zero reads as the number it prints as, and a leading zero is ignored |
| Decimal.NatToStringDigitsValue | VRGL.py:96 | a digit string without a leading zero is the printed form of the value it reads as |
| Decimal.LeadingZeroIgnored | VRGL.py:96 | a zero in front of a digit string leaves it a digit string of the same value |
| Decimal.ParseNatToString | VRGL.py:74 | reading back a printed natural number gives the number |
| Threshold.ThresholdInput | VRGL.py:94-102 | empty input gives 80; an accepted answer lies in 0..100; a non-empty answer that is not a digit string is refused and the prompt repeats |
| Threshold.TypedNumberAccepted | VRGL.py:96-100 | a typed whole number is accepted exactly when it is at most 100, and then it is the threshold |
| Threshold.LeadingZerosAccepted | VRGL.py:96-100 | zeros typed in front of a number change nothing: "080" is accepted as 80, "0101" is refused like "101" |
| Report.Header | VRGL.py:65-67 | the header is non-empty and ends with a complete line, so the listing starts on a line of its own; its three lines are read back by `HeaderLines` |
| Report.HeaderLines | VRGL.py:65-67 | the header reads back line by line: "File: " and the path, then "Searched in: " and the selector as typed, then "Keywords found:" as its last line |
| Report.FormatOccurrence | VRGL.py:73-75 | the lines written for one match are non-empty and end with a complete line; their fields are read back by `EntryFields`, `EntryPosition` and `EntryContext` |
| Report.EntryFields | VRGL.py:73 | the first line of a match reads back as "- ", the keyword, " (matched as '", the matched word, and "')" ending the line |
| Report.EntryPosition | VRGL.py:74 | the second line is "  Position: " and the match's offset in decimal, reading back as that offset, then a newline |
| Report.EntryContext | VRGL.py:75 | the third line is "  Context: ...", the context window, and "...", and it ends the lines of the match |
| Report.FormatListing | VRGL.py:68-75 | the text of a listing is empty exactly when the listing has no match, and the text of a one-match listing is that match's lines |
| Report.EntryInListing | VRGL.py:68-75 | the text of a listing is its entries' lines in order: the lines of the i-th entry come after those of the entries before it and before those of the entries after it |
| Report.Block | VRGL.py:65-76 | a block starts with its file and selector header and ends with the blank line that separates it from the next block |
| Report.FormatListingEndsWithNewline | VRGL.py:73-75 | a non-empty listing ends with the newline of its last context line |
| Report.FormatListingAppend | VRGL.py:68-75 | the text of two listings in sequence is the two texts in sequence |
| Report.FormatListingThree | VRGL.py:68-75 | the text of three listings in sequence is the three texts in sequence |
| Scan.WritesExactlyWhenQualified | VRGL.py:48-64 | a file writes a block exactly when every keyword is found, by `fuzzy_search`, in the region its selector picks |
| Scan.WrittenBlock | VRGL.py:65-77 | the block written is the header, then the text of the listing of the selected region, then one blank line |
| Scan.WrittenGroup | VRGL.py:65-77 | inside a written block, after the header, come the lines of the keywords before the i-th, then the lines of the i-th keyword's own matches, then those of the keywords after it, then the blank line |
| Scan.ScanOutputAppend | VRGL.py:40-77 | blocks are appended in file order: the output for two runs of files is the first's output followed by the second's |
| Scan.NothingWritten | VRGL.py:40-77 | the output is empty exactly when no file writes a block |
| Scan.MissingKeywordWritesNothing | VRGL.py:63-77 | a file missing one keyword writes no block, not even a partial one |
| Scan.UnknownSelectorScansAll | VRGL.py:54-77 | an unrecognised selector qualifies and lists exactly as "all", only the selector line of the header repeats the string typed |
| Scenarios.QualifiedButUnlisted | VRGL.py:63-72 | with exact-match scoring, the region "e-mail" qualifies for keyword "e-mail" but lists no match, because the two passes tokenise differently |
| Scenarios.TurtleSkipped | VRGL.py:63-64 | "slow turtle" does not qualify for keywords quick and fox, so it writes nothing |
| Scenarios.QuickBrownFoxScan | VRGL.py:40-77 | for the two-file example with exact-match scoring, the output is one block for a.txt listing quick at offset 4 and fox at offset 16, each with the whole sentence as context |

## Left out

- Directory traversal (`os.walk`), the file-ending filter and the counting pass: the model starts from the sequence of files that were found and read, in discovery order.
- Reading files (UTF-8 decoding, newline translation) and the exception handler that prints a message and moves on: a file that cannot be read simply does not appear in the sequence. The same handler also covers the write of a block, so in the script a qualifying file whose block cannot be written to the UTF-8 output file (for instance a path holding characters that were decoded with surrogate escapes) adds nothing and the scan continues; `Scan.ScanOutput` writes a block for every qualifying file, so the model assumes every write succeeds.
- The progress bar (`tqdm`) and the writes to the output file: the output is modelled as the string the writes produce.
- The interactive prompts of `main` other than the threshold: splitting the keyword answer on commas, stripping it, and lower-casing the selector answer happen before the scan and are left to the caller.
- The internals of `fuzz.ratio`, `str.lower` and the Unicode whitespace and word-character classes: they are parameters (see `Primitives`).
- Threshold.ThresholdInput: accepts only plain ASCII digit strings, whereas Python's `int()` also accepts a sign, surrounding whitespace, underscores between digits and non-ASCII digits; such answers are refused by the model and the prompt repeats.
- Decimal.ParseNat: reads only plain ASCII digit strings, whereas Python's `int()` also reads a leading sign, surrounding whitespace, single underscores between digits and non-ASCII decimal digits; on such strings the model reports no number.
- Report.Block: its own contract states only the header and the final blank line; the full layout of a written block is stated by `Scan.WrittenBlock` and `Scan.WrittenGroup` (header, listing text, blank line, one group per keyword), `Report.HeaderLines` (the header's lines), `Report.EntryInListing` (the listing text is its entries' lines in order) and `Report.EntryFields`, `Report.EntryPosition` and `Report.EntryContext` (the lines of one match).
