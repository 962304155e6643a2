/** The `.dzi` XML descriptor that `create_tiles` writes once every level
    is done (src/lib.rs:119-129), and a reader for the four numbers it
    carries. */
module DziDescriptor {
  import opened Decimal
  import opened Results

  /** The values the template is filled with: the configured tile size
      and overlap and the full-resolution source size. */
  datatype Attributes = Attributes(tileSize: nat, overlap: nat, width: nat, height: nat)

  /** The fixed pieces of the template, between the four numbers. Lines
      are joined by a single line feed and the text has no final line
      feed. */
  const Head: string :=
    "<?xml version=\"1.0\" encoding=\"UTF-8\"?>\n"
    + "<Image xmlns=\"http://schemas.microsoft.com/deepzoom/2008\"\n"
    + "    TileSize=\""
  const AfterTileSize: string := "\"\n    Overlap=\""
  const AfterOverlap: string := "\"\n    Format=\"jpg\">\n    <Size Width=\""
  const AfterWidth: string := "\" Height=\""
  const Tail: string := "\"/>\n</Image>"

  /** The descriptor text for the given attributes: the XML declaration
      first, the closing `</Image>` last, with no final line feed. */
  function Text(a: Attributes): (text: string)
    ensures Head <= text && |Tail| <= |text| && text[|text| - |Tail|..] == Tail
  {
    Head + (Dec(a.tileSize) + (AfterTileSize + (Dec(a.overlap) + (AfterOverlap
      + (Dec(a.width) + (AfterWidth + (Dec(a.height) + Tail)))))))
  }

  /** Expects the literal `lit` at the front of s, then a non-empty run of
      digits; gives their value and what follows them. */
  function ReadNumber(s: string, lit: string): Option<(nat, string)> {
    if |lit| <= |s| && s[..|lit|] == lit then
      var (digits, rest) := SpanDigits(s[|lit|..]);
      if digits == [] then None else Some((ParseDec(digits), rest))
    else
      None
  }

  /** Reads the four attributes back out of a descriptor text. */
  function Parse(s: string): Option<Attributes> {
    match ReadNumber(s, Head)
    case None => None
    case Some((tileSize, s1)) =>
      match ReadNumber(s1, AfterTileSize)
      case None => None
      case Some((overlap, s2)) =>
        match ReadNumber(s2, AfterOverlap)
        case None => None
        case Some((width, s3)) =>
          match ReadNumber(s3, AfterWidth)
          case None => None
          case Some((height, s4)) =>
            if s4 == Tail then Some(Attributes(tileSize, overlap, width, height)) else None
  }

  lemma ReadNumberOf(lit: string, n: nat, rest: string)
    requires rest == [] || !IsDigit(rest[0])
    ensures ReadNumber(lit + (Dec(n) + rest), lit) == Some((n, rest))
  {
    var s := lit + (Dec(n) + rest);
    assert s[..|lit|] == lit;
    assert s[|lit|..] == Dec(n) + rest;
    SpanDigitsOfPrefix(Dec(n), rest);
    ParseDecOfDec(n);
  }

  /** Reading a descriptor gives back exactly the values it was written
      with. */
  lemma ParseText(a: Attributes)
    ensures Parse(Text(a)) == Some(a)
  {
    var s4 := Tail;
    var s3 := AfterWidth + (Dec(a.height) + s4);
    var s2 := AfterOverlap + (Dec(a.width) + s3);
    var s1 := AfterTileSize + (Dec(a.overlap) + s2);
    assert Text(a) == Head + (Dec(a.tileSize) + s1);
    ReadNumberOf(Head, a.tileSize, s1);
    ReadNumberOf(AfterTileSize, a.overlap, s2);
    ReadNumberOf(AfterOverlap, a.width, s3);
    ReadNumberOf(AfterWidth, a.height, s4);
  }

  /** Different configurations or source sizes give different
      descriptors. */
  lemma TextInjective(a: Attributes, b: Attributes)
    requires Text(a) == Text(b)
    ensures a == b
  {
    ParseText(a);
    ParseText(b);
  }
}
