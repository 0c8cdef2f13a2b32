/**
 * The style attributes the CSS encoder reads: fonts, colours, shadows, the
 * attribute keys of an attributed string and the paragraph style, plus the
 * CSS declarations the encoder produces.
 *
 * The platform's number-to-text conversions and the colour-to-hex conversion
 * are not part of this model; they are carried in `Formats` as given
 * functions, so every statement about the encoder holds whatever they print.
 */
module StyleModel {
  import opened Wrappers
  import Text

  /** A colour by its components; only its hex text (`Formats.hex`) reaches the CSS. */
  datatype Color = Rgba(red: real, green: real, blue: real, alpha: real)

  /** The fully transparent colour (`UIColor.clear`). */
  const Clear: Color := Rgba(0.0, 0.0, 0.0, 0.0)

  /** A font by its point size and its textual description (what `UIFont.description` prints). */
  datatype Font = Font(pointSize: real, description: string)

  /** `NSShadow`: offset, blur radius and an optional colour. */
  datatype Shadow = Shadow(offsetWidth: real, offsetHeight: real, blurRadius: real, color: Option<Color>)

  /**
   * The value stored under an attribute key. The attribute dictionary is
   * heterogeneous (`[Key: Any]`); each `as? T` cast of the encoder succeeds on
   * exactly one of these variants, and `Other` stands for every value no cast
   * accepts (paragraph styles, URLs, attachments, ...).
   */
  datatype Value =
    | FontValue(font: Font)
    | ColorValue(color: Color)
    | NumberValue(number: real)
    | ShadowValue(shadow: Shadow)
    | Other

  /** `NSAttributedString.Key`: the keys the encoder distinguishes, and every other key. */
  datatype Key =
    | ParagraphStyleKey | StrikethroughStyle | UnderlineStyle | AttachmentKey | Link
    | Ligature | Obliqueness
    | FontKey | ForegroundColor | BackgroundColor | Kern | StrokeWidth | StrokeColor
    | ShadowKey | BaselineOffset | Expansion
    | OtherKey(name: string)

  /** `NSTextAlignment`. */
  datatype Alignment = Left | Center | Right | Justified | Natural

  /** An `NSTextList`, by the raw value of its marker format. */
  datatype TextList = TextList(markerFormat: string)

  /** `NSTextList.MarkerFormat.decimal.rawValue` and `.disc.rawValue`. */
  const DecimalMarker: string := "{decimal}"
  const DiscMarker: string := "{disc}"

  /** The fields of `NSParagraphStyle` the encoder reads. */
  datatype ParagraphStyle = ParagraphStyle(
    paragraphSpacingBefore: real,
    paragraphSpacing: real,
    headIndent: real,
    tailIndent: real,
    alignment: Alignment,
    textLists: seq<TextList>)

  /**
   * The text conversions the encoder relies on: string interpolation of a
   * `CGFloat` and of an `NSNumber`, `UIColor.qhexString`, and the text of
   * `HtmlTransformRZ.expansionTrans` applied to an expansion value.
   */
  datatype Formats = Formats(
    cgFloat: real -> string,
    number: real -> string,
    hex: Color -> string,
    expansionScale: real -> string)

  /** One CSS declaration `property:value;`. */
  datatype Decl = Decl(property: string, value: string)

  function Render(d: Decl): string {
    d.property + ":" + d.value + ";"
  }

  /** The text of a declaration list: each declaration rendered, in order, with no separator. */
  function Css(ds: seq<Decl>): string
    decreases |ds|
  {
    if ds == [] then "" else Css(ds[..|ds| - 1]) + Render(ds[|ds| - 1])
  }

  lemma {:induction false} CssAppend(a: seq<Decl>, b: seq<Decl>)
    ensures Css(a + b) == Css(a) + Css(b)
    decreases |b|
  {
    if b == [] {
      assert a + b == a;
    } else {
      assert (a + b)[..|a + b| - 1] == a + b[..|b| - 1];
      CssAppend(a, b[..|b| - 1]);
    }
  }

  lemma CssCons(d: Decl, rest: seq<Decl>)
    ensures Css([d] + rest) == Render(d) + Css(rest)
  {
    CssAppend([d], rest);
    assert Css([d]) == Css([]) + Render(d);
  }

  /**
   * Appending the rendered text of declaration `d` to a list of fragments
   * whose concatenation is the text of `ds` keeps the two in step.
   */
  lemma AppendDecl(styles: seq<string>, ds: seq<Decl>, fragment: string, d: Decl)
    requires Text.Joined(styles) == Css(ds)
    requires fragment == Render(d)
    ensures Text.Joined(styles + [fragment]) == Css(ds + [d])
  {
    Text.JoinedSnoc(styles, fragment);
    assert (ds + [d])[..|ds|] == ds;
  }

  /**
   * The same for a fragment that renders several declarations at once, after
   * text `done` that the list of fragments already starts with.
   */
  lemma AppendDeclsAfter(styles: seq<string>, done: string, ds: seq<Decl>, fragment: string, more: seq<Decl>)
    requires Text.Joined(styles) == done + Css(ds)
    requires fragment == Css(more)
    ensures Text.Joined(styles + [fragment]) == done + Css(ds + more)
  {
    Text.JoinedSnoc(styles, fragment);
    CssAppend(ds, more);
    calc {
      Text.Joined(styles + [fragment]);
      Text.Joined(styles) + fragment;
      (done + Css(ds)) + Css(more);
      done + (Css(ds) + Css(more));
      done + Css(ds + more);
    }
  }

  lemma DeclsAssoc(x: seq<Decl>, y: seq<Decl>, z: seq<Decl>)
    ensures x + (y + z) == (x + y) + z
  {
  }

  lemma DeclsAppendNothing(ds: seq<Decl>)
    ensures ds + [] == ds
  {
  }

  /** Appending the text of no declarations changes nothing. */
  lemma AppendNoCss(s: string)
    ensures s + Css([]) == s
  {
  }

  lemma CssSingle(d: Decl)
    ensures Css([d]) == Render(d)
  {
    assert [d][..0] == [];
  }

  lemma CssPair(d: Decl, e: Decl)
    ensures Css([d, e]) == Render(d) + Render(e)
  {
    assert [d, e][..1] == [d];
    CssSingle(d);
  }

  /** Some declaration of `ds` sets `property`. */
  predicate HasProperty(ds: seq<Decl>, property: string) {
    exists i :: 0 <= i < |ds| && ds[i].property == property
  }

  lemma HasPropertyAppend(a: seq<Decl>, b: seq<Decl>, property: string)
    ensures HasProperty(a + b, property) <==> HasProperty(a, property) || HasProperty(b, property)
  {
    if HasProperty(a + b, property) {
      var i :| 0 <= i < |a + b| && (a + b)[i].property == property;
      if i >= |a| {
        assert b[i - |a|].property == property;
      }
    }
    if HasProperty(b, property) {
      var i :| 0 <= i < |b| && b[i].property == property;
      assert (a + b)[|a| + i].property == property;
    }
    if HasProperty(a, property) {
      var i :| 0 <= i < |a| && a[i].property == property;
      assert (a + b)[i].property == property;
    }
  }
}
