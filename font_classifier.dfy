/**
 * `UIFont.fontType`: the weight and slant of a font, read from its textual
 * description. All spaces are removed first; then the description is searched
 * for a bold marker and an italic marker, each in two spellings.
 */
module FontClassifier {
  import opened Text

  /** `UIFont.RZFontType`. */
  datatype FontType = Normal | BoldItalic | Bold | Italic

  predicate IsBold(t: FontType) {
    t == Bold || t == BoldItalic
  }

  predicate IsItalic(t: FontType) {
    t == Italic || t == BoldItalic
  }

  predicate HasBoldMarker(desc: string) {
    Contains(desc, "font-weight:bold") || Contains(desc, "font-weight:Bold")
  }

  predicate HasItalicMarker(desc: string) {
    Contains(desc, "font-style:italic") || Contains(desc, "font-style:Italic")
  }

  /**
   * The class of a font with description `description`: bold (or
   * bold-italic) exactly when its space-free description holds a bold marker,
   * italic (or bold-italic) exactly when it holds an italic marker; the two
   * are decided independently.
   */
  function Classify(description: string): (t: FontType)
    ensures IsBold(t) <==> HasBoldMarker(StripSpaces(description))
    ensures IsItalic(t) <==> HasItalicMarker(StripSpaces(description))
  {
    var desc := StripSpaces(description);
    var b := HasBoldMarker(desc);
    var i := HasItalicMarker(desc);
    if b && i then BoldItalic
    else if b then Bold
    else if i then Italic
    else Normal
  }

  /** Spaces in a description never change its class: classifying the stripped description gives the same answer. */
  lemma ClassifyIgnoresSpaces(description: string)
    ensures Classify(StripSpaces(description)) == Classify(description)
  {
    StripSpacesIdempotent(description);
  }

  /**
   * A marker written with one space after its colon, as font descriptions
   * print it, is found once the spaces are stripped, whatever surrounds it.
   */
  lemma StripSpacedMarker(before: string, key: string, word: string, after: string)
    requires ' ' !in key && ' ' !in word
    ensures StripSpaces(before + key + " " + word + after)
      == StripSpaces(before) + (key + word) + StripSpaces(after)
  {
    var sb, sa := StripSpaces(before), StripSpaces(after);
    RegroupAroundSpace(before, key, word, after);
    StripAroundSpace(before + key, word + after);
    StripSpacesAppend(before, key);
    StripSpacesAppend(word, after);
    StripSpacesKeepsSpaceFree(key);
    StripSpacesKeepsSpaceFree(word);
    Regroup(sb, key, word, sa);
  }

  lemma {:induction false} SpacedMarkerFound(before: string, key: string, word: string, after: string)
    requires ' ' !in key && ' ' !in word
    ensures Contains(StripSpaces(before + key + " " + word + after), key + word)
  {
    StripSpacedMarker(before, key, word, after);
    assert Contains(key + word, key + word) by {
      assert IsPrefix(key + word, key + word);
    }
    ContainsExtend(StripSpaces(before), key + word, StripSpaces(after), key + word);
  }

  /**
   * A description that holds a bold declaration, spaced as a font description
   * prints it (`font-weight: bold`), classifies as bold or bold-italic
   * whatever surrounds it; likewise for italic.
   */
  lemma BoldDeclarationClassifiesBold(before: string, after: string)
    ensures IsBold(Classify(before + "font-weight: bold" + after))
  {
    assert before + "font-weight: bold" + after == before + "font-weight:" + " " + "bold" + after;
    SpacedMarkerFound(before, "font-weight:", "bold", after);
    assert "font-weight:" + "bold" == "font-weight:bold";
  }

  lemma ItalicDeclarationClassifiesItalic(before: string, after: string)
    ensures IsItalic(Classify(before + "font-style: italic" + after))
  {
    assert before + "font-style: italic" + after == before + "font-style:" + " " + "italic" + after;
    SpacedMarkerFound(before, "font-style:", "italic", after);
    assert "font-style:" + "italic" == "font-style:italic";
  }

  /**
   * Text added around a description never removes a weight or slant already
   * found in it.
   */
  lemma {:induction false} ClassifyMonotone(before: string, description: string, after: string)
    ensures IsBold(Classify(description)) ==> IsBold(Classify(before + description + after))
    ensures IsItalic(Classify(description)) ==> IsItalic(Classify(before + description + after))
  {
    StripSpacesAppend(before + description, after);
    StripSpacesAppend(before, description);
    var d := StripSpaces(description);
    var a, b := StripSpaces(before), StripSpaces(after);
    if Contains(d, "font-weight:bold") { ContainsExtend(a, d, b, "font-weight:bold"); }
    if Contains(d, "font-weight:Bold") { ContainsExtend(a, d, b, "font-weight:Bold"); }
    if Contains(d, "font-style:italic") { ContainsExtend(a, d, b, "font-style:italic"); }
    if Contains(d, "font-style:Italic") { ContainsExtend(a, d, b, "font-style:Italic"); }
  }

  /** A description shorter than every marker (such as the empty one) classifies as normal. */
  lemma ShortDescriptionIsNormal(description: string)
    requires |description| < 16
    ensures Classify(description) == Normal
  {
    var d := StripSpaces(description);
    if Contains(d, "font-weight:bold") { ContainsNeedsLength(d, "font-weight:bold"); }
    if Contains(d, "font-weight:Bold") { ContainsNeedsLength(d, "font-weight:Bold"); }
    if Contains(d, "font-style:italic") { ContainsNeedsLength(d, "font-style:italic"); }
    if Contains(d, "font-style:Italic") { ContainsNeedsLength(d, "font-style:Italic"); }
  }
}
