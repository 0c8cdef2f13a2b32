/**
 * The paragraph side of the encoder (`NSParagraphStyle` extension): whether a
 * paragraph belongs to an ordered or an unordered list (`isol`, `isul`), and
 * the CSS declarations of its `<p>` tag (`rz2cssStyle(font:)`).
 */
module ParagraphCss {
  import opened Wrappers
  import opened Text
  import opened StyleModel

  /** Some text list of `lists` has a marker format whose raw value contains `marker`. */
  predicate UsesMarker(lists: seq<TextList>, marker: string) {
    exists i :: 0 <= i < |lists| && Contains(lists[i].markerFormat, marker)
  }

  /**
   * The scan shared by `isol` and `isul`: a flag, initially false, set by
   * every text list whose marker format contains `marker`.
   */
  method ListsUseMarker(lists: seq<TextList>, marker: string) returns (temp: bool)
    ensures temp <==> exists i :: 0 <= i < |lists| && Contains(lists[i].markerFormat, marker)
  {
    temp := false;
    for n := 0 to |lists|
      invariant temp <==> exists i :: 0 <= i < n && Contains(lists[i].markerFormat, marker)
    {
      if Contains(lists[n].markerFormat, marker) {
        temp := true;
      }
    }
  }

  /** `isol`: the paragraph is part of an ordered (decimal) list. */
  method IsOrdered(p: ParagraphStyle) returns (ol: bool)
    ensures ol == UsesMarker(p.textLists, DecimalMarker)
  {
    ol := ListsUseMarker(p.textLists, DecimalMarker);
  }

  /** `isul`: the paragraph is part of an unordered (disc) list. */
  method IsUnordered(p: ParagraphStyle) returns (ul: bool)
    ensures ul == UsesMarker(p.textLists, DiscMarker)
  {
    ul := ListsUseMarker(p.textLists, DiscMarker);
  }

  /** Neither marker holds the other, so a plain list answers one question only. */
  lemma MarkersDistinct()
    ensures !Contains(DecimalMarker, DiscMarker)
    ensures !Contains(DiscMarker, DecimalMarker)
  {
    if Contains(DiscMarker, DecimalMarker) {
      ContainsNeedsLength(DiscMarker, DecimalMarker);
    }
    forall i: nat ensures !OccursAt(DecimalMarker, DiscMarker, i) {
      if i + |DiscMarker| > |DecimalMarker| {
      } else if i == 0 {
        assert DecimalMarker[..6][2] != DiscMarker[2];
      } else {
        assert DecimalMarker[i..i + 6][0] != DiscMarker[0];
      }
    }
    NotContains(DecimalMarker, DiscMarker);
  }

  /**
   * For paragraphs whose text lists are plain decimal or disc lists, the
   * ordered flag holds exactly when some list is decimal and the unordered
   * flag exactly when some list is disc; a paragraph with both kinds reports
   * both, and one without lists reports neither.
   */
  lemma {:induction false} PlainListKinds(lists: seq<TextList>)
    requires forall i :: 0 <= i < |lists| ==>
      lists[i].markerFormat == DecimalMarker || lists[i].markerFormat == DiscMarker
    ensures UsesMarker(lists, DecimalMarker) <==> exists i :: 0 <= i < |lists| && lists[i].markerFormat == DecimalMarker
    ensures UsesMarker(lists, DiscMarker) <==> exists i :: 0 <= i < |lists| && lists[i].markerFormat == DiscMarker
  {
    MarkersDistinct();
    var d, c := DecimalMarker, DiscMarker;
    assert Contains(d, d) by { assert IsPrefix(d, d); }
    assert Contains(c, c) by { assert IsPrefix(c, c); }
  }

  /** The margin declaration: space before, 0 right, space after, head indent. */
  function MarginDecl(p: ParagraphStyle, fmt: Formats): Decl {
    Decl("margin", fmt.cgFloat(p.paragraphSpacingBefore) + "px 0.0px "
      + fmt.cgFloat(p.paragraphSpacing) + "px " + fmt.cgFloat(p.headIndent) + "px")
  }

  function AlignDecls(a: Alignment): seq<Decl> {
    match a
    case Center => [Decl("text-align", "center")]
    case Right => [Decl("text-align", "right")]
    case _ => []
  }

  function IndentDecls(p: ParagraphStyle, fmt: Formats): seq<Decl> {
    if p.tailIndent != 0.0 then [Decl("text-indent", fmt.cgFloat(p.tailIndent) + "px")] else []
  }

  function FontSizeDecls(font: Option<Font>, fmt: Formats): seq<Decl> {
    match font
    case Some(f) => [Decl("font-size", fmt.cgFloat(f.pointSize) + "px")]
    case None => []
  }

  /** The declarations of a paragraph, in the order the encoder writes them. */
  function ParagraphDecls(p: ParagraphStyle, font: Option<Font>, fmt: Formats): seq<Decl> {
    [MarginDecl(p, fmt)] + AlignDecls(p.alignment) + IndentDecls(p, fmt) + FontSizeDecls(font, fmt)
  }

  /** The literal fragments the encoder appends are the rendered declarations. */
  lemma ParagraphFragments(fmt: Formats, p: ParagraphStyle, x: string)
    ensures "margin:" + fmt.cgFloat(p.paragraphSpacingBefore) + "px 0.0px "
      + fmt.cgFloat(p.paragraphSpacing) + "px " + fmt.cgFloat(p.headIndent) + "px;" == Render(MarginDecl(p, fmt))
    ensures "text-indent:" + x + "px;" == Render(Decl("text-indent", x + "px"))
    ensures "font-size:" + x + "px;" == Render(Decl("font-size", x + "px"))
  {
  }

  lemma AlignFragments()
    ensures "text-align:center;" == Css(AlignDecls(Center))
    ensures "text-align:right;" == Css(AlignDecls(Right))
  {
    CssSingle(Decl("text-align", "center"));
    CssSingle(Decl("text-align", "right"));
  }

  /** The alignment step of `rz2cssStyle(font:)`: centre and right alignment are written, the others are not. */
  method AppendAlignment(styles: seq<string>, alignment: Alignment) returns (out: seq<string>)
    ensures Joined(out) == Joined(styles) + Css(AlignDecls(alignment))
  {
    AlignFragments();
    if alignment == Center {
      out := styles + ["text-align:center;"];
      JoinedSnoc(styles, "text-align:center;");
    } else if alignment == Right {
      out := styles + ["text-align:right;"];
      JoinedSnoc(styles, "text-align:right;");
    } else {
      out := styles;
      assert AlignDecls(alignment) == [];
      AppendNoCss(Joined(styles));
    }
  }

  /**
   * `rz2cssStyle(font:)`: the paragraph's declarations, appended one by one
   * and joined. The text always starts with the margin declaration.
   */
  method ParagraphStyleCss(p: ParagraphStyle, font: Option<Font>, fmt: Formats) returns (css: string)
    ensures css == Css(ParagraphDecls(p, font, fmt))
  {
    var styles: seq<string> := [];
    var fragment := "margin:" + fmt.cgFloat(p.paragraphSpacingBefore) + "px 0.0px "
      + fmt.cgFloat(p.paragraphSpacing) + "px " + fmt.cgFloat(p.headIndent) + "px;";
    assert fragment == Render(MarginDecl(p, fmt)) by { ParagraphFragments(fmt, p, ""); }
    AppendDecl(styles, [], fragment, MarginDecl(p, fmt));
    styles := styles + [fragment];
    ghost var done := [MarginDecl(p, fmt)];
    styles := AppendAlignment(styles, p.alignment);
    CssAppend(done, AlignDecls(p.alignment));
    done := done + AlignDecls(p.alignment);
    if p.tailIndent != 0.0 {
      fragment := "text-indent:" + fmt.cgFloat(p.tailIndent) + "px;";
      assert fragment == Render(Decl("text-indent", fmt.cgFloat(p.tailIndent) + "px")) by {
        ParagraphFragments(fmt, p, fmt.cgFloat(p.tailIndent));
      }
      AppendDecl(styles, done, fragment, Decl("text-indent", fmt.cgFloat(p.tailIndent) + "px"));
      styles := styles + [fragment];
    } else {
      DeclsAppendNothing(done);
    }
    done := done + IndentDecls(p, fmt);
    if font.Some? {
      fragment := "font-size:" + fmt.cgFloat(font.value.pointSize) + "px;";
      assert fragment == Render(Decl("font-size", fmt.cgFloat(font.value.pointSize) + "px")) by {
        ParagraphFragments(fmt, p, fmt.cgFloat(font.value.pointSize));
      }
      AppendDecl(styles, done, fragment, Decl("font-size", fmt.cgFloat(font.value.pointSize) + "px"));
      styles := styles + [fragment];
    } else {
      DeclsAppendNothing(done);
    }
    done := done + FontSizeDecls(font, fmt);
    css := Joined(styles);
  }

  /** Position of a paragraph declaration in the encoder's fixed order. */
  function Rank(property: string): nat {
    if property == "margin" then 0
    else if property == "text-align" then 1
    else if property == "text-indent" then 2
    else if property == "font-size" then 3
    else 4
  }

  /**
   * The margin declaration comes first, always, and is the only margin
   * declaration; every declaration after it is one of the other three kinds,
   * in the order alignment, indent, font size, each at most once.
   */
  lemma ParagraphDeclOrder(p: ParagraphStyle, font: Option<Font>, fmt: Formats)
    ensures var ds := ParagraphDecls(p, font, fmt);
      && 1 <= |ds| <= 4
      && ds[0] == MarginDecl(p, fmt)
      && (forall i, j :: 0 <= i < j < |ds| ==> Rank(ds[i].property) < Rank(ds[j].property))
      && (forall i :: 0 <= i < |ds| ==> Rank(ds[i].property) < 4)
  {
    assert Rank("text-align") == 1 && Rank("text-indent") == 2 && Rank("font-size") == 3;
  }

  /**
   * Alignment: a centred paragraph gets exactly `text-align:center;`, a
   * right-aligned one exactly `text-align:right;`; left, justified and natural
   * alignment add no alignment declaration.
   */
  lemma ParagraphAlignment(p: ParagraphStyle, font: Option<Font>, fmt: Formats)
    ensures var ds := ParagraphDecls(p, font, fmt);
      && (Decl("text-align", "center") in ds <==> p.alignment == Center)
      && (Decl("text-align", "right") in ds <==> p.alignment == Right)
      && (HasProperty(ds, "text-align") <==> p.alignment == Center || p.alignment == Right)
  {
    var ds := ParagraphDecls(p, font, fmt);
    assert "margin" != "text-align" && "text-indent" != "text-align" && "font-size" != "text-align";
    assert p.alignment == Center ==> ds[1] == Decl("text-align", "center");
    assert p.alignment == Right ==> ds[1] == Decl("text-align", "right");
  }

  /** A `text-indent` declaration, carrying the tail indent, appears exactly when the tail indent is non-zero. */
  lemma ParagraphIndent(p: ParagraphStyle, font: Option<Font>, fmt: Formats)
    ensures var ds := ParagraphDecls(p, font, fmt);
      && (HasProperty(ds, "text-indent") <==> p.tailIndent != 0.0)
      && (p.tailIndent != 0.0 ==> Decl("text-indent", fmt.cgFloat(p.tailIndent) + "px") in ds)
  {
    var ds := ParagraphDecls(p, font, fmt);
    assert "margin" != "text-indent" && "text-align" != "text-indent" && "font-size" != "text-indent";
    var k := 1 + |AlignDecls(p.alignment)|;
    assert p.tailIndent != 0.0 ==> ds[k] == Decl("text-indent", fmt.cgFloat(p.tailIndent) + "px");
  }

  /** A `font-size` declaration, carrying the point size, appears exactly when a font is supplied. */
  lemma ParagraphFontSize(p: ParagraphStyle, font: Option<Font>, fmt: Formats)
    ensures var ds := ParagraphDecls(p, font, fmt);
      && (HasProperty(ds, "font-size") <==> font.Some?)
      && (font.Some? ==> ds[|ds| - 1] == Decl("font-size", fmt.cgFloat(font.value.pointSize) + "px"))
  {
    var ds := ParagraphDecls(p, font, fmt);
    assert "margin" != "font-size" && "text-align" != "font-size" && "text-indent" != "font-size";
    if font.Some? {
      assert ds[|ds| - 1].property == "font-size";
    } else {
      var a, n := AlignDecls(p.alignment), IndentDecls(p, fmt);
      assert ds == [MarginDecl(p, fmt)] + a + n;
      forall i | 0 <= i < |ds| ensures ds[i].property != "font-size" {
        if i == 0 {
        } else if i < 1 + |a| {
          assert ds[i] == a[i - 1];
        } else {
          assert ds[i] == n[i - 1 - |a|];
        }
      }
    }
  }

  /**
   * The paragraph's CSS always begins with its margin: space before, zero on
   * the right, space after, head indent on the left.
   */
  lemma ParagraphStartsWithMargin(p: ParagraphStyle, font: Option<Font>, fmt: Formats)
    ensures IsPrefix(Render(MarginDecl(p, fmt)), Css(ParagraphDecls(p, font, fmt)))
  {
    var m, a, i, f := [MarginDecl(p, fmt)], AlignDecls(p.alignment), IndentDecls(p, fmt), FontSizeDecls(font, fmt);
    DeclsAssoc(m + a, i, f);
    DeclsAssoc(m, a, i + f);
    CssCons(MarginDecl(p, fmt), a + (i + f));
    PrefixOfConcat(Render(MarginDecl(p, fmt)), Css(a + (i + f)));
  }
}
