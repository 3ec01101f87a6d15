/** The three-way split of a file's content and the choice of the region
    that is searched (VRGL.py, lines 48-61). */
module Partition {

  /** The three consecutive parts of a file's content. */
  datatype Parts = Parts(beginning: string, middle: string, end: string)

  /** The region selector after parsing: the three named parts, and the whole
      content for every other selector string. */
  datatype SearchPart = Beginning | Middle | End | All

  /** Cuts the content at `n / 3` and `2 * (n / 3)`, `n` its length; the last
      part absorbs the remainder of the division. */
  function Split(content: string): (parts: Parts)
    ensures parts.beginning + parts.middle + parts.end == content
    ensures |parts.beginning| == |parts.middle| == |content| / 3
    ensures |parts.end| == |content| - 2 * (|content| / 3)
    ensures |parts.middle| <= |parts.end| <= |parts.middle| + 2
  {
    var third := |content| / 3;
    Parts(content[..third], content[third..2 * third], content[2 * third..])
  }

  /** The script compares the selector with three literals; anything else,
      `"all"` included, falls through to the whole content. */
  function ParseSearchPart(selector: string): (part: SearchPart)
    ensures part == Beginning <==> selector == "beginning"
    ensures part == Middle <==> selector == "middle"
    ensures part == End <==> selector == "end"
    ensures part == All <==> selector !in {"beginning", "middle", "end"}
  {
    if selector == "beginning" then Beginning
    else if selector == "middle" then Middle
    else if selector == "end" then End
    else All
  }

  /** Where the selected region starts in the content. */
  function RegionStart(content: string, part: SearchPart): (start: nat)
    ensures start <= |content|
  {
    match part
    case Beginning => 0
    case Middle => |content| / 3
    case End => 2 * (|content| / 3)
    case All => 0
  }

  /** The part of the content the keywords are searched in. */
  function Region(content: string, part: SearchPart): (region: string)
    ensures RegionStart(content, part) + |region| <= |content|
    ensures region == content[RegionStart(content, part)..][..|region|]
    ensures part == All ==> region == content
    ensures part in {Beginning, Middle} ==> |region| == |content| / 3
    ensures part == End ==> |region| == |content| - 2 * (|content| / 3)
  {
    var parts := Split(content);
    match part
    case Beginning => parts.beginning
    case Middle => parts.middle
    case End => parts.end
    case All => content
  }

  /** The region the script searches for a selector string. */
  function SelectRegion(content: string, selector: string): (region: string)
    ensures selector == "beginning" ==> region == Split(content).beginning
    ensures selector == "middle" ==> region == Split(content).middle
    ensures selector == "end" ==> region == Split(content).end
    ensures selector !in {"beginning", "middle", "end"} ==> region == content
  {
    Region(content, ParseSearchPart(selector))
  }

  /** An unrecognised selector searches exactly what `"all"` searches. */
  lemma UnknownSelectorMeansAll(content: string, selector: string)
    requires selector !in {"beginning", "middle", "end"}
    ensures SelectRegion(content, selector) == SelectRegion(content, "all") == content
  {
  }

  /** The three regions tile the content: each begins where the previous one
      ends, and together they are the whole content. */
  lemma RegionsTile(content: string)
    ensures RegionStart(content, Beginning) == 0
    ensures RegionStart(content, Middle) == |Region(content, Beginning)|
    ensures RegionStart(content, End) == RegionStart(content, Middle) + |Region(content, Middle)|
    ensures RegionStart(content, End) + |Region(content, End)| == |content|
    ensures Region(content, Beginning) + Region(content, Middle) + Region(content, End) == content
  {
  }

}
