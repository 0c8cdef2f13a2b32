/**
 * The run side of the encoder (`[NSAttributedString.Key: Any].rz2cssStyle`):
 * one CSS fragment per attribute key of a text run, in the order the
 * dictionary yields its keys, joined into the run's `style` text.
 *
 * Paragraph style, strikethrough, underline, attachment and link are written
 * as enclosing tags elsewhere, ligature and obliqueness are not used, and
 * keys the encoder does not know fall to its default case: all of them add
 * nothing here.
 */
module RunCss {
  import opened Wrappers
  import opened Text
  import opened StyleModel
  import opened FontClassifier

  /** An attribute dictionary: the value under each key, of any of the kinds `Value` covers. */
  type Attributes = map<Key, Value>

  predicate Distinct(keys: seq<Key>) {
    forall i, j :: 0 <= i < j < |keys| ==> keys[i] != keys[j]
  }

  /** `order` lists every key of `attrs` exactly once: an iteration order of the dictionary. */
  predicate IsKeyOrder(order: seq<Key>, attrs: Attributes) {
    && Distinct(order)
    && (forall k :: k in attrs ==> k in order)
    && (forall i :: 0 <= i < |order| ==> order[i] in attrs)
  }

  /** The keys whose entries the run encoder skips on purpose or by default. */
  predicate Ignored(k: Key) {
    || k.ParagraphStyleKey? || k.StrikethroughStyle? || k.UnderlineStyle? || k.AttachmentKey? || k.Link?
    || k.Ligature? || k.Obliqueness? || k.OtherKey?
  }

  /** `attrs[k] as? UIColor`. */
  function ColorAt(attrs: Attributes, k: Key): Option<Color> {
    if k in attrs && attrs[k].ColorValue? then Some(attrs[k].color) else None
  }

  /** `attrs[k] as? NSNumber`, when its value is not zero. */
  predicate NonZeroAt(attrs: Attributes, k: Key) {
    k in attrs && attrs[k].NumberValue? && attrs[k].number != 0.0
  }

  /** The point size of the run's font, or 15 when the run has none. */
  function FontSizeOr15(attrs: Attributes): real {
    if FontKey in attrs && attrs[FontKey].FontValue? then attrs[FontKey].font.pointSize else 15.0
  }

  /** Stroke colour, else foreground colour, else clear. */
  function StrokeColour(attrs: Attributes): Color {
    ColorAt(attrs, StrokeColor).GetOr(ColorAt(attrs, ForegroundColor).GetOr(Clear))
  }

  /** Shadow colour, else foreground colour, else clear. */
  function ShadowColour(s: Shadow, attrs: Attributes): Color {
    s.color.GetOr(ColorAt(attrs, ForegroundColor).GetOr(Clear))
  }

  /** The hollow-outline override: a fully transparent fill. */
  const TransparentFill: Decl := Decl("color", "#00000000")

  function WeightDecls(t: FontType): seq<Decl> {
    match t
    case BoldItalic => [Decl("font-weight", "bold"), Decl("font-style", "italic")]
    case Bold => [Decl("font-weight", "bold")]
    case Italic => [Decl("font-style", "italic")]
    case Normal => []
  }

  function StrokeDecls(width: real, attrs: Attributes, fmt: Formats): seq<Decl> {
    var v := width * FontSizeOr15(attrs) / 100.0;
    [Decl("-webkit-text-stroke", fmt.cgFloat(v) + "px #" + fmt.hex(StrokeColour(attrs)))]
      + (if v > 0.0 then [TransparentFill] else [])
  }

  function ShadowDecl(s: Shadow, attrs: Attributes, fmt: Formats): Decl {
    Decl("text-shadow", fmt.cgFloat(s.offsetWidth) + "px " + fmt.cgFloat(s.offsetHeight) + "px "
      + fmt.cgFloat(s.blurRadius) + "px #" + fmt.hex(ShadowColour(s, attrs)))
  }

  function ExpansionDecls(x: string): seq<Decl> {
    [Decl("transform", "scaleX(" + x + ")"), Decl("transform-origin", " 0 0"), Decl("display", "inline-block")]
  }

  function FontDecls(value: Value, fmt: Formats): seq<Decl> {
    if value.FontValue? then
      [Decl("font-size", fmt.cgFloat(value.font.pointSize) + "px")] + WeightDecls(Classify(value.font.description))
    else []
  }

  function ColorDecls(property: string, value: Value, fmt: Formats): seq<Decl> {
    if value.ColorValue? then [Decl(property, "#" + fmt.hex(value.color))] else []
  }

  /** A non-zero number: number entries add nothing when their value is not a number or is zero. */
  predicate IsNonZero(value: Value) {
    value.NumberValue? && value.number != 0.0
  }

  function KernDecls(value: Value, fmt: Formats): seq<Decl> {
    if IsNonZero(value) then [Decl("word-spacing", fmt.number(value.number) + "px")] else []
  }

  function StrokeEntryDecls(value: Value, attrs: Attributes, fmt: Formats): seq<Decl> {
    if IsNonZero(value) then StrokeDecls(value.number, attrs, fmt) else []
  }

  function BaselineDecls(value: Value, fmt: Formats): seq<Decl> {
    if IsNonZero(value) then [Decl("vertical-align", fmt.number(value.number) + "px")] else []
  }

  function ExpansionEntryDecls(value: Value, fmt: Formats): seq<Decl> {
    if IsNonZero(value) then ExpansionDecls(fmt.expansionScale(value.number)) else []
  }

  function ShadowDecls(value: Value, attrs: Attributes, fmt: Formats): seq<Decl> {
    if value.ShadowValue? then [ShadowDecl(value.shadow, attrs, fmt)] else []
  }

  /** The declarations the entry under `key` contributes. */
  function KeyDecls(key: Key, attrs: Attributes, fmt: Formats): seq<Decl> {
    if key !in attrs then [] else
    var value := attrs[key];
    match key
    case FontKey => FontDecls(value, fmt)
    case ForegroundColor => ColorDecls("color", value, fmt)
    case BackgroundColor => ColorDecls("background-color", value, fmt)
    case Kern => KernDecls(value, fmt)
    case StrokeWidth => StrokeEntryDecls(value, attrs, fmt)
    case ShadowKey => ShadowDecls(value, attrs, fmt)
    case BaselineOffset => BaselineDecls(value, fmt)
    case Expansion => ExpansionEntryDecls(value, fmt)
    case _ => []
  }

  /** The declarations of a run whose dictionary yields its keys in `order`. */
  function RunDecls(attrs: Attributes, order: seq<Key>, fmt: Formats): seq<Decl>
    decreases |order|
  {
    if order == [] then []
    else RunDecls(attrs, order[..|order| - 1], fmt) + KeyDecls(order[|order| - 1], attrs, fmt)
  }

  // The literal fragments the encoder appends are the rendered declarations.

  lemma FontFragments(x: string)
    ensures "font-size:" + x + "px;" == Css([Decl("font-size", x + "px")])
    ensures "font-weight:bold;" == Css([Decl("font-weight", "bold")])
    ensures "font-style:italic;" == Css([Decl("font-style", "italic")])
  {
    CssSingle(Decl("font-size", x + "px"));
    CssSingle(Decl("font-weight", "bold"));
    CssSingle(Decl("font-style", "italic"));
  }

  lemma ColorFragments(h: string)
    ensures "color:#" + h + ";" == Css([Decl("color", "#" + h)])
    ensures "background-color:#" + h + ";" == Css([Decl("background-color", "#" + h)])
  {
    CssSingle(Decl("color", "#" + h));
    CssSingle(Decl("background-color", "#" + h));
  }

  lemma NumberFragments(x: string)
    ensures "word-spacing:" + x + "px;" == Css([Decl("word-spacing", x + "px")])
    ensures "vertical-align:" + x + "px;" == Css([Decl("vertical-align", x + "px")])
  {
    CssSingle(Decl("word-spacing", x + "px"));
    CssSingle(Decl("vertical-align", x + "px"));
  }

  lemma StrokeFragments(v: string, h: string)
    ensures "-webkit-text-stroke:" + v + "px #" + h + ";" == Css([Decl("-webkit-text-stroke", v + "px #" + h)])
    ensures "-webkit-text-stroke:" + v + "px #" + h + ";color:#00000000;"
      == Css([Decl("-webkit-text-stroke", v + "px #" + h), TransparentFill])
  {
    CssSingle(Decl("-webkit-text-stroke", v + "px #" + h));
    CssPair(Decl("-webkit-text-stroke", v + "px #" + h), TransparentFill);
  }

  lemma ShadowFragment(w: string, h: string, r: string, c: string)
    ensures "text-shadow:" + w + "px " + h + "px " + r + "px #" + c + ";"
      == Css([Decl("text-shadow", w + "px " + h + "px " + r + "px #" + c)])
  {
    CssSingle(Decl("text-shadow", w + "px " + h + "px " + r + "px #" + c));
  }

  lemma ExpansionFragment(x: string)
    ensures "transform:scaleX(" + x + ");" + "transform-origin: 0 0;" + "display:inline-block;" == Css(ExpansionDecls(x))
  {
    var ds := ExpansionDecls(x);
    assert Render(ds[0]) == "transform:scaleX(" + x + ");";
    assert Render(ds[1]) == "transform-origin: 0 0;";
    assert Render(ds[2]) == "display:inline-block;";
    assert ds[..2] == [ds[0], ds[1]];
    CssPair(ds[0], ds[1]);
  }

  /** Appends one fragment that renders `decls`. */
  method AppendFragment(styletexts: seq<string>, fragment: string, ghost decls: seq<Decl>) returns (out: seq<string>)
    requires fragment == Css(decls)
    ensures Joined(out) == Joined(styletexts) + Css(decls)
  {
    out := styletexts + [fragment];
    JoinedSnoc(styletexts, fragment);
  }

  /**
   * The stroke case of the encoder's `forEach`: the outline width is the
   * stroke width as a percentage of the font size (15 without a font), its
   * colour the stroke colour, else the foreground colour, else clear; a
   * positive width also makes the fill transparent.
   */
  method AppendStrokeCss(styletexts: seq<string>, width: real, attrs: Attributes, fmt: Formats)
    returns (out: seq<string>)
    ensures Joined(out) == Joined(styletexts) + Css(StrokeDecls(width, attrs, fmt))
  {
    var size := if FontKey in attrs && attrs[FontKey].FontValue? then attrs[FontKey].font.pointSize else 15.0;
    var v := width * size / 100.0;
    var color :=
      if StrokeColor in attrs && attrs[StrokeColor].ColorValue? then attrs[StrokeColor].color
      else if ForegroundColor in attrs && attrs[ForegroundColor].ColorValue? then attrs[ForegroundColor].color
      else Clear;
    assert size == FontSizeOr15(attrs) && color == StrokeColour(attrs);
    var x, h := fmt.cgFloat(v), fmt.hex(color);
    StrokeFragments(x, h);
    ghost var decls := StrokeDecls(width, attrs, fmt);
    assert v == width * FontSizeOr15(attrs) / 100.0;
    if v > 0.0 {
      assert decls == [Decl("-webkit-text-stroke", x + "px #" + h), TransparentFill];
      out := AppendFragment(styletexts, "-webkit-text-stroke:" + x + "px #" + h + ";color:#00000000;", decls);
    } else {
      assert decls == [Decl("-webkit-text-stroke", x + "px #" + h)];
      out := AppendFragment(styletexts, "-webkit-text-stroke:" + x + "px #" + h + ";", decls);
    }
  }

  /** The font case of the encoder's `forEach`: the size, then the weight and slant the font's class calls for. */
  method AppendFontCss(styletexts: seq<string>, font: Font, fmt: Formats) returns (out: seq<string>)
    ensures Joined(out) == Joined(styletexts) + Css(FontDecls(FontValue(font), fmt))
  {
    ghost var done := Joined(styletexts);
    var x := fmt.cgFloat(font.pointSize);
    FontFragments(x);
    AppendDeclsAfter(styletexts, done, [], "font-size:" + x + "px;", [Decl("font-size", x + "px")]);
    out := styletexts + ["font-size:" + x + "px;"];
    ghost var ds := [Decl("font-size", x + "px")];
    match Classify(font.description) {
      case BoldItalic =>
        AppendDeclsAfter(out, done, ds, "font-weight:bold;", [Decl("font-weight", "bold")]);
        out, ds := out + ["font-weight:bold;"], ds + [Decl("font-weight", "bold")];
        AppendDeclsAfter(out, done, ds, "font-style:italic;", [Decl("font-style", "italic")]);
        out, ds := out + ["font-style:italic;"], ds + [Decl("font-style", "italic")];
      case Bold =>
        AppendDeclsAfter(out, done, ds, "font-weight:bold;", [Decl("font-weight", "bold")]);
        out, ds := out + ["font-weight:bold;"], ds + [Decl("font-weight", "bold")];
      case Italic =>
        AppendDeclsAfter(out, done, ds, "font-style:italic;", [Decl("font-style", "italic")]);
        out, ds := out + ["font-style:italic;"], ds + [Decl("font-style", "italic")];
      case Normal =>
    }
    assert ds == FontDecls(FontValue(font), fmt);
  }

  /**
   * The shadow case of the encoder's `forEach`: offsets, blur radius and the
   * shadow's colour, else the foreground colour, else clear.
   */
  method AppendShadowCss(styletexts: seq<string>, s: Shadow, attrs: Attributes, fmt: Formats)
    returns (out: seq<string>)
    ensures Joined(out) == Joined(styletexts) + Css([ShadowDecl(s, attrs, fmt)])
  {
    var color := if s.color.Some? then s.color.value
      else if ForegroundColor in attrs && attrs[ForegroundColor].ColorValue? then attrs[ForegroundColor].color
      else Clear;
    assert color == ShadowColour(s, attrs);
    var w, ht, r, h := fmt.cgFloat(s.offsetWidth), fmt.cgFloat(s.offsetHeight), fmt.cgFloat(s.blurRadius), fmt.hex(color);
    ShadowFragment(w, ht, r, h);
    out := AppendFragment(styletexts, "text-shadow:" + w + "px " + ht + "px " + r + "px #" + h + ";",
      [ShadowDecl(s, attrs, fmt)]);
  }

  /**
   * The body of the encoder's `forEach`: the fragments for one key, appended
   * to `styletexts`.
   */
  method AppendKeyCss(styletexts: seq<string>, key: Key, attrs: Attributes, fmt: Formats)
    returns (out: seq<string>)
    requires key in attrs
    ensures Joined(out) == Joined(styletexts) + Css(KeyDecls(key, attrs, fmt))
  {
    out := styletexts;
    ghost var decls := KeyDecls(key, attrs, fmt);
    AppendNoCss(Joined(styletexts));
    var value := attrs[key];
    match key {
      case FontKey =>
        if value.FontValue? {
          assert decls == FontDecls(FontValue(value.font), fmt);
          out := AppendFontCss(styletexts, value.font, fmt);
        }
      case ForegroundColor =>
        if value.ColorValue? {
          var h := fmt.hex(value.color);
          ColorFragments(h);
          assert decls == [Decl("color", "#" + h)];
          out := AppendFragment(styletexts, "color:#" + h + ";", [Decl("color", "#" + h)]);
        }
      case BackgroundColor =>
        if value.ColorValue? {
          var h := fmt.hex(value.color);
          ColorFragments(h);
          assert decls == [Decl("background-color", "#" + h)];
          out := AppendFragment(styletexts, "background-color:#" + h + ";", [Decl("background-color", "#" + h)]);
        }
      case Kern =>
        if value.NumberValue? && value.number != 0.0 {
          var x := fmt.number(value.number);
          NumberFragments(x);
          assert decls == [Decl("word-spacing", x + "px")];
          out := AppendFragment(styletexts, "word-spacing:" + x + "px;", [Decl("word-spacing", x + "px")]);
        }
      case StrokeWidth =>
        if value.NumberValue? && value.number != 0.0 {
          assert decls == StrokeDecls(value.number, attrs, fmt);
          out := AppendStrokeCss(styletexts, value.number, attrs, fmt);
        }
      case ShadowKey =>
        if value.ShadowValue? {
          assert decls == [ShadowDecl(value.shadow, attrs, fmt)];
          out := AppendShadowCss(styletexts, value.shadow, attrs, fmt);
        }
      case BaselineOffset =>
        if value.NumberValue? && value.number != 0.0 {
          var x := fmt.number(value.number);
          NumberFragments(x);
          assert decls == [Decl("vertical-align", x + "px")];
          out := AppendFragment(styletexts, "vertical-align:" + x + "px;", [Decl("vertical-align", x + "px")]);
        }
      case Expansion =>
        if value.NumberValue? && value.number != 0.0 {
          var x := fmt.expansionScale(value.number);
          ExpansionFragment(x);
          assert decls == ExpansionDecls(x);
          out := AppendFragment(styletexts, "transform:scaleX(" + x + ");" + "transform-origin: 0 0;" + "display:inline-block;",
            ExpansionDecls(x));
        }
      case _ =>
    }
  }

  /** `rz2cssStyle`: every key's fragments, in the dictionary's order, joined. */
  method RunStyleCss(attrs: Attributes, order: seq<Key>, fmt: Formats) returns (css: string)
    requires IsKeyOrder(order, attrs)
    ensures css == Css(RunDecls(attrs, order, fmt))
  {
    var styletexts: seq<string> := [];
    for i := 0 to |order|
      invariant Joined(styletexts) == Css(RunDecls(attrs, order[..i], fmt))
    {
      styletexts := AppendKeyCss(styletexts, order[i], attrs, fmt);
      assert order[..i + 1][..i] == order[..i];
      CssAppend(RunDecls(attrs, order[..i], fmt), KeyDecls(order[i], attrs, fmt));
    }
    assert order[..|order|] == order;
    css := Joined(styletexts);
  }

  lemma RunDeclsSnoc(attrs: Attributes, keys: seq<Key>, k: Key, fmt: Formats)
    ensures RunDecls(attrs, keys + [k], fmt) == RunDecls(attrs, keys, fmt) + KeyDecls(k, attrs, fmt)
  {
    assert (keys + [k])[..|keys|] == keys;
  }

  lemma TakeDropJoin(keys: seq<Key>, j: nat)
    requires j <= |keys|
    ensures keys[..j] + keys[j..] == keys
  {
  }

  lemma SplitLast(a: seq<Key>, b: seq<Key>)
    requires b != []
    ensures b == b[..|b| - 1] + [b[|b| - 1]]
    ensures a + b == (a + b[..|b| - 1]) + [b[|b| - 1]]
  {
  }

  lemma {:induction false} RunDeclsAppend(attrs: Attributes, a: seq<Key>, b: seq<Key>, fmt: Formats)
    ensures RunDecls(attrs, a + b, fmt) == RunDecls(attrs, a, fmt) + RunDecls(attrs, b, fmt)
    decreases |b|
  {
    if b == [] {
      assert a + b == a;
    } else {
      var front, k := b[..|b| - 1], b[|b| - 1];
      SplitLast(a, b);
      RunDeclsSnoc(attrs, a + front, k, fmt);
      RunDeclsSnoc(attrs, front, k, fmt);
      RunDeclsAppend(attrs, a, front, fmt);
      DeclsAssoc(RunDecls(attrs, a, fmt), RunDecls(attrs, front, fmt), KeyDecls(k, attrs, fmt));
    }
  }

  /** The properties the entry under a key can set. */
  function KeyProperties(k: Key): set<string> {
    match k
    case FontKey => {"font-size", "font-weight", "font-style"}
    case ForegroundColor => {"color"}
    case BackgroundColor => {"background-color"}
    case Kern => {"word-spacing"}
    case StrokeWidth => {"-webkit-text-stroke", "color"}
    case ShadowKey => {"text-shadow"}
    case BaselineOffset => {"vertical-align"}
    case Expansion => {"transform", "transform-origin", "display"}
    case _ => {}
  }

  lemma KeyDeclsProperties(k: Key, attrs: Attributes, fmt: Formats)
    ensures forall d :: d in KeyDecls(k, attrs, fmt) ==> d.property in KeyProperties(k)
  {
    if k in attrs {
      var value := attrs[k];
      match k
      case FontKey =>
        if value.FontValue? {
          var t := Classify(value.font.description);
          assert KeyDecls(k, attrs, fmt) == [Decl("font-size", fmt.cgFloat(value.font.pointSize) + "px")] + WeightDecls(t);
        }
      case StrokeWidth =>
        if value.NumberValue? && value.number != 0.0 {
          assert KeyDecls(k, attrs, fmt) == StrokeDecls(value.number, attrs, fmt);
        }
      case Expansion =>
        if value.NumberValue? && value.number != 0.0 {
          assert KeyDecls(k, attrs, fmt) == ExpansionDecls(fmt.expansionScale(value.number));
        }
      case _ =>
    }
  }

  /** Every declaration an entry contributes is part of the run's declarations. */
  lemma KeyDeclsInRun(attrs: Attributes, order: seq<Key>, fmt: Formats, k: Key)
    requires k in order
    ensures forall d :: d in KeyDecls(k, attrs, fmt) ==> d in RunDecls(attrs, order, fmt)
  {
    var i :| 0 <= i < |order| && order[i] == k;
    assert order == order[..i + 1] + order[i + 1..];
    RunDeclsAppend(attrs, order[..i + 1], order[i + 1..], fmt);
    assert order[..i + 1][..i] == order[..i];
  }

  /** Only the entry under `key` can set property `p`. */
  ghost predicate SoleOwner(p: string, key: Key) {
    forall k :: p in KeyProperties(k) ==> k == key
  }

  // The properties set by one entry only.

  lemma FontOwnsItsProperties()
    ensures SoleOwner("font-size", FontKey) && SoleOwner("font-weight", FontKey) && SoleOwner("font-style", FontKey)
  {
  }

  lemma NumbersOwnTheirProperties()
    ensures SoleOwner("word-spacing", Kern) && SoleOwner("vertical-align", BaselineOffset)
    ensures SoleOwner("transform", Expansion)
  {
  }

  lemma BackgroundOwnsItsProperty()
    ensures SoleOwner("background-color", BackgroundColor)
  {
  }

  lemma StrokeOwnsItsProperty()
    ensures SoleOwner("-webkit-text-stroke", StrokeWidth)
  {
  }

  lemma ShadowOwnsItsProperty()
    ensures SoleOwner("text-shadow", ShadowKey)
  {
  }

  /** Every declaration of a run comes from the entry under one of its keys. */
  lemma {:induction false} RunDeclOrigin(attrs: Attributes, order: seq<Key>, fmt: Formats, d: Decl) returns (i: nat)
    requires d in RunDecls(attrs, order, fmt)
    ensures i < |order| && d in KeyDecls(order[i], attrs, fmt)
    decreases |order|
  {
    var n := |order| - 1;
    assert RunDecls(attrs, order, fmt) == RunDecls(attrs, order[..n], fmt) + KeyDecls(order[n], attrs, fmt);
    if d in KeyDecls(order[n], attrs, fmt) {
      i := n;
    } else {
      i := RunDeclOrigin(attrs, order[..n], fmt, d);
      assert order[..n][i] == order[i];
    }
  }

  /**
   * When only the entry under `key` can set property `p`, a run sets `p`
   * exactly when that entry does, wherever the key stands in the order.
   */
  lemma SoleEmitter(attrs: Attributes, order: seq<Key>, fmt: Formats, p: string, key: Key)
    requires IsKeyOrder(order, attrs)
    requires SoleOwner(p, key)
    ensures HasProperty(RunDecls(attrs, order, fmt), p) <==> HasProperty(KeyDecls(key, attrs, fmt), p)
  {
    if HasProperty(KeyDecls(key, attrs, fmt), p) {
      EntryPropertyInRun(attrs, order, fmt, p, key);
    }
    if HasProperty(RunDecls(attrs, order, fmt), p) {
      RunPropertyFromOwner(attrs, order, fmt, p, key);
    }
  }

  lemma EntryPropertyInRun(attrs: Attributes, order: seq<Key>, fmt: Formats, p: string, key: Key)
    requires IsKeyOrder(order, attrs)
    requires HasProperty(KeyDecls(key, attrs, fmt), p)
    ensures HasProperty(RunDecls(attrs, order, fmt), p)
  {
    var ds := KeyDecls(key, attrs, fmt);
    var run := RunDecls(attrs, order, fmt);
    var j :| 0 <= j < |ds| && ds[j].property == p;
    assert key in attrs;
    KeyDeclsInRun(attrs, order, fmt, key);
    assert ds[j] in run;
    var m :| 0 <= m < |run| && run[m] == ds[j];
  }

  lemma RunPropertyFromOwner(attrs: Attributes, order: seq<Key>, fmt: Formats, p: string, key: Key)
    requires SoleOwner(p, key)
    requires HasProperty(RunDecls(attrs, order, fmt), p)
    ensures HasProperty(KeyDecls(key, attrs, fmt), p)
  {
    var run := RunDecls(attrs, order, fmt);
    var j :| 0 <= j < |run| && run[j].property == p;
    var i := RunDeclOrigin(attrs, order, fmt, run[j]);
    KeyDeclsProperties(order[i], attrs, fmt);
    var m :| 0 <= m < |KeyDecls(key, attrs, fmt)| && KeyDecls(key, attrs, fmt)[m] == run[j];
  }

  // What each entry sets, on its own.

  lemma FontEntry(attrs: Attributes, fmt: Formats)
    ensures var ds := KeyDecls(FontKey, attrs, fmt);
      var hasFont := FontKey in attrs && attrs[FontKey].FontValue?;
      && (HasProperty(ds, "font-size") <==> hasFont)
      && (hasFont ==> Decl("font-size", fmt.cgFloat(attrs[FontKey].font.pointSize) + "px") in ds)
      && (HasProperty(ds, "font-weight")
          <==> hasFont && HasBoldMarker(StripSpaces(attrs[FontKey].font.description)))
      && (HasProperty(ds, "font-style")
          <==> hasFont && HasItalicMarker(StripSpaces(attrs[FontKey].font.description)))
      && (hasFont && HasBoldMarker(StripSpaces(attrs[FontKey].font.description))
          ==> Decl("font-weight", "bold") in ds)
      && (hasFont && HasItalicMarker(StripSpaces(attrs[FontKey].font.description))
          ==> Decl("font-style", "italic") in ds)
  {
    if FontKey in attrs && attrs[FontKey].FontValue? {
      var f := attrs[FontKey].font;
      var t := Classify(f.description);
      var ds := KeyDecls(FontKey, attrs, fmt);
      assert ds == [Decl("font-size", fmt.cgFloat(f.pointSize) + "px")] + WeightDecls(t);
      assert ds[0].property == "font-size";
      match t {
        case BoldItalic => assert ds[1] == Decl("font-weight", "bold") && ds[2] == Decl("font-style", "italic");
        case Bold => assert ds[1] == Decl("font-weight", "bold");
        case Italic => assert ds[1] == Decl("font-style", "italic");
        case Normal =>
      }
    }
  }

  lemma BackgroundEntry(attrs: Attributes, fmt: Formats)
    ensures HasProperty(KeyDecls(BackgroundColor, attrs, fmt), "background-color")
      <==> ColorAt(attrs, BackgroundColor).Some?
    ensures ColorAt(attrs, BackgroundColor).Some?
      ==> Decl("background-color", "#" + fmt.hex(ColorAt(attrs, BackgroundColor).value))
          in KeyDecls(BackgroundColor, attrs, fmt)
  {
    if ColorAt(attrs, BackgroundColor).Some? {
      assert KeyDecls(BackgroundColor, attrs, fmt)[0].property == "background-color";
    }
  }

  lemma ForegroundEntry(attrs: Attributes, fmt: Formats)
    ensures HasProperty(KeyDecls(ForegroundColor, attrs, fmt), "color") <==> ColorAt(attrs, ForegroundColor).Some?
    ensures ColorAt(attrs, ForegroundColor).Some?
      ==> Decl("color", "#" + fmt.hex(ColorAt(attrs, ForegroundColor).value)) in KeyDecls(ForegroundColor, attrs, fmt)
  {
    if ColorAt(attrs, ForegroundColor).Some? {
      assert KeyDecls(ForegroundColor, attrs, fmt)[0] in KeyDecls(ForegroundColor, attrs, fmt);
      assert KeyDecls(ForegroundColor, attrs, fmt)[0].property == "color";
    }
  }

  /** A hollow outline: a non-zero stroke width whose outline width is positive. */
  predicate HollowStroke(attrs: Attributes) {
    NonZeroAt(attrs, StrokeWidth) && attrs[StrokeWidth].number * FontSizeOr15(attrs) / 100.0 > 0.0
  }

  /** The stroke entry sets `color` (the transparent fill) exactly for a hollow outline. */
  lemma StrokeFillEntry(attrs: Attributes, fmt: Formats)
    ensures HasProperty(KeyDecls(StrokeWidth, attrs, fmt), "color") <==> HollowStroke(attrs)
  {
    var stroke := KeyDecls(StrokeWidth, attrs, fmt);
    if NonZeroAt(attrs, StrokeWidth) {
      StrokeEntryEffect(attrs, fmt);
      assert stroke == StrokeDecls(attrs[StrokeWidth].number, attrs, fmt);
      assert stroke[0].property == "-webkit-text-stroke";
      if HollowStroke(attrs) {
        assert stroke[1] == TransparentFill;
      } else {
        assert stroke == [stroke[0]];
      }
    } else {
      assert stroke == [];
    }
  }

  /** Only the foreground colour and the stroke entries can set `color`. */
  lemma ColorOwners()
    ensures forall k :: "color" in KeyProperties(k) ==> k == ForegroundColor || k == StrokeWidth
  {
  }

  /** A run sets `color` only through the foreground colour or the stroke entry. */
  lemma RunColorOrigin(attrs: Attributes, order: seq<Key>, fmt: Formats)
    requires HasProperty(RunDecls(attrs, order, fmt), "color")
    ensures HasProperty(KeyDecls(ForegroundColor, attrs, fmt), "color")
      || HasProperty(KeyDecls(StrokeWidth, attrs, fmt), "color")
  {
    var run := RunDecls(attrs, order, fmt);
    var j :| 0 <= j < |run| && run[j].property == "color";
    var i := RunDeclOrigin(attrs, order, fmt, run[j]);
    var k := order[i];
    KeyDeclsProperties(k, attrs, fmt);
    ColorOwners();
    var m :| 0 <= m < |KeyDecls(k, attrs, fmt)| && KeyDecls(k, attrs, fmt)[m] == run[j];
  }

  lemma KernEntry(attrs: Attributes, fmt: Formats)
    ensures HasProperty(KeyDecls(Kern, attrs, fmt), "word-spacing") <==> NonZeroAt(attrs, Kern)
    ensures NonZeroAt(attrs, Kern)
      ==> Decl("word-spacing", fmt.number(attrs[Kern].number) + "px") in KeyDecls(Kern, attrs, fmt)
  {
    if NonZeroAt(attrs, Kern) {
      assert KeyDecls(Kern, attrs, fmt)[0].property == "word-spacing";
    }
  }

  lemma BaselineEntry(attrs: Attributes, fmt: Formats)
    ensures HasProperty(KeyDecls(BaselineOffset, attrs, fmt), "vertical-align") <==> NonZeroAt(attrs, BaselineOffset)
    ensures NonZeroAt(attrs, BaselineOffset)
      ==> Decl("vertical-align", fmt.number(attrs[BaselineOffset].number) + "px") in KeyDecls(BaselineOffset, attrs, fmt)
  {
    if NonZeroAt(attrs, BaselineOffset) {
      assert KeyDecls(BaselineOffset, attrs, fmt)[0].property == "vertical-align";
    }
  }

  lemma ExpansionEntry(attrs: Attributes, fmt: Formats)
    ensures HasProperty(KeyDecls(Expansion, attrs, fmt), "transform") <==> NonZeroAt(attrs, Expansion)
    ensures NonZeroAt(attrs, Expansion)
      ==> KeyDecls(Expansion, attrs, fmt) == ExpansionDecls(fmt.expansionScale(attrs[Expansion].number))
  {
    if NonZeroAt(attrs, Expansion) {
      assert KeyDecls(Expansion, attrs, fmt) == ExpansionDecls(fmt.expansionScale(attrs[Expansion].number));
      assert KeyDecls(Expansion, attrs, fmt)[0].property == "transform";
    }
  }

  lemma StrokeEntry(attrs: Attributes, fmt: Formats)
    ensures HasProperty(KeyDecls(StrokeWidth, attrs, fmt), "-webkit-text-stroke") <==> NonZeroAt(attrs, StrokeWidth)
  {
    if NonZeroAt(attrs, StrokeWidth) {
      assert KeyDecls(StrokeWidth, attrs, fmt) == StrokeDecls(attrs[StrokeWidth].number, attrs, fmt);
      assert KeyDecls(StrokeWidth, attrs, fmt)[0].property == "-webkit-text-stroke";
    }
  }

  lemma ShadowEntry(attrs: Attributes, fmt: Formats)
    ensures HasProperty(KeyDecls(ShadowKey, attrs, fmt), "text-shadow")
      <==> ShadowKey in attrs && attrs[ShadowKey].ShadowValue?
  {
    if ShadowKey in attrs && attrs[ShadowKey].ShadowValue? {
      assert KeyDecls(ShadowKey, attrs, fmt)[0].property == "text-shadow";
    }
  }

  /**
   * Font entry: `font-size` appears exactly when the run has a font; then
   * `font-weight:bold` exactly when its space-free description holds a bold
   * marker, and `font-style:italic` exactly when it holds an italic marker.
   */
  lemma RunFontDecls(attrs: Attributes, order: seq<Key>, fmt: Formats)
    requires IsKeyOrder(order, attrs)
    ensures var out := RunDecls(attrs, order, fmt);
      var hasFont := FontKey in attrs && attrs[FontKey].FontValue?;
      && (HasProperty(out, "font-size") <==> hasFont)
      && (hasFont ==> Decl("font-size", fmt.cgFloat(attrs[FontKey].font.pointSize) + "px") in out)
      && (HasProperty(out, "font-weight")
          <==> hasFont && HasBoldMarker(StripSpaces(attrs[FontKey].font.description)))
      && (HasProperty(out, "font-style")
          <==> hasFont && HasItalicMarker(StripSpaces(attrs[FontKey].font.description)))
      && (hasFont && HasBoldMarker(StripSpaces(attrs[FontKey].font.description))
          ==> Decl("font-weight", "bold") in out)
      && (hasFont && HasItalicMarker(StripSpaces(attrs[FontKey].font.description))
          ==> Decl("font-style", "italic") in out)
  {
    FontOwnsItsProperties();
    SoleEmitter(attrs, order, fmt, "font-size", FontKey);
    SoleEmitter(attrs, order, fmt, "font-weight", FontKey);
    SoleEmitter(attrs, order, fmt, "font-style", FontKey);
    FontEntry(attrs, fmt);
    if FontKey in attrs {
      KeyDeclsInRun(attrs, order, fmt, FontKey);
    }
  }

  /**
   * Colours: a background colour gives `background-color:#{hex}` and nothing
   * else does; a foreground colour gives `color:#{hex}`, and a `color`
   * declaration appears only for a foreground colour or a hollow outline.
   */
  lemma RunColorDecls(attrs: Attributes, order: seq<Key>, fmt: Formats)
    requires IsKeyOrder(order, attrs)
    ensures var out := RunDecls(attrs, order, fmt);
      && (HasProperty(out, "background-color") <==> ColorAt(attrs, BackgroundColor).Some?)
      && (ColorAt(attrs, BackgroundColor).Some?
          ==> Decl("background-color", "#" + fmt.hex(ColorAt(attrs, BackgroundColor).value)) in out)
      && (ColorAt(attrs, ForegroundColor).Some?
          ==> Decl("color", "#" + fmt.hex(ColorAt(attrs, ForegroundColor).value)) in out)
      && (HasProperty(out, "color") <==> ColorAt(attrs, ForegroundColor).Some? || HollowStroke(attrs))
  {
    BackgroundOwnsItsProperty();
    SoleEmitter(attrs, order, fmt, "background-color", BackgroundColor);
    BackgroundEntry(attrs, fmt);
    ForegroundEntry(attrs, fmt);
    if ColorAt(attrs, BackgroundColor).Some? {
      KeyDeclsInRun(attrs, order, fmt, BackgroundColor);
    }
    if ColorAt(attrs, ForegroundColor).Some? {
      KeyDeclsInRun(attrs, order, fmt, ForegroundColor);
      EntryPropertyInRun(attrs, order, fmt, "color", ForegroundColor);
    }
    StrokeFillEntry(attrs, fmt);
    if HollowStroke(attrs) {
      EntryPropertyInRun(attrs, order, fmt, "color", StrokeWidth);
    }
    if HasProperty(RunDecls(attrs, order, fmt), "color") {
      RunColorOrigin(attrs, order, fmt);
    }
  }

  /**
   * Kern, baseline offset and expansion add a declaration exactly when their
   * value is a non-zero number.
   */
  lemma RunNumberDecls(attrs: Attributes, order: seq<Key>, fmt: Formats)
    requires IsKeyOrder(order, attrs)
    ensures var out := RunDecls(attrs, order, fmt);
      && (HasProperty(out, "word-spacing") <==> NonZeroAt(attrs, Kern))
      && (HasProperty(out, "vertical-align") <==> NonZeroAt(attrs, BaselineOffset))
      && (HasProperty(out, "transform") <==> NonZeroAt(attrs, Expansion))
      && (NonZeroAt(attrs, Kern) ==> Decl("word-spacing", fmt.number(attrs[Kern].number) + "px") in out)
      && (NonZeroAt(attrs, BaselineOffset)
          ==> Decl("vertical-align", fmt.number(attrs[BaselineOffset].number) + "px") in out)
      && (NonZeroAt(attrs, Expansion)
          ==> forall d :: d in ExpansionDecls(fmt.expansionScale(attrs[Expansion].number)) ==> d in out)
  {
    NumbersOwnTheirProperties();
    SoleEmitter(attrs, order, fmt, "word-spacing", Kern);
    SoleEmitter(attrs, order, fmt, "vertical-align", BaselineOffset);
    SoleEmitter(attrs, order, fmt, "transform", Expansion);
    KernEntry(attrs, fmt);
    BaselineEntry(attrs, fmt);
    ExpansionEntry(attrs, fmt);
    if Kern in attrs { KeyDeclsInRun(attrs, order, fmt, Kern); }
    if BaselineOffset in attrs { KeyDeclsInRun(attrs, order, fmt, BaselineOffset); }
    if Expansion in attrs { KeyDeclsInRun(attrs, order, fmt, Expansion); }
  }

  /** A stroke declaration appears exactly when the stroke width is a non-zero number. */
  lemma RunStrokePresent(attrs: Attributes, order: seq<Key>, fmt: Formats)
    requires IsKeyOrder(order, attrs)
    ensures HasProperty(RunDecls(attrs, order, fmt), "-webkit-text-stroke") <==> NonZeroAt(attrs, StrokeWidth)
  {
    StrokeOwnsItsProperty();
    SoleEmitter(attrs, order, fmt, "-webkit-text-stroke", StrokeWidth);
    StrokeEntry(attrs, fmt);
  }

  /** A shadow declaration appears exactly when the run has a shadow. */
  lemma RunShadowPresent(attrs: Attributes, order: seq<Key>, fmt: Formats)
    requires IsKeyOrder(order, attrs)
    ensures HasProperty(RunDecls(attrs, order, fmt), "text-shadow")
      <==> ShadowKey in attrs && attrs[ShadowKey].ShadowValue?
  {
    ShadowOwnsItsProperty();
    SoleEmitter(attrs, order, fmt, "text-shadow", ShadowKey);
    ShadowEntry(attrs, fmt);
  }

  /**
   * Stroke: the outline width is the stroke width as a percentage of the
   * font size (15 without a font); its colour is the stroke colour, else the
   * foreground colour, else clear; and for a positive font size the fill is
   * made transparent exactly when the width is positive (a hollow outline).
   */
  lemma StrokeEffect(attrs: Attributes, order: seq<Key>, fmt: Formats)
    requires IsKeyOrder(order, attrs)
    requires NonZeroAt(attrs, StrokeWidth)
    ensures var w := attrs[StrokeWidth].number;
      var stroke := KeyDecls(StrokeWidth, attrs, fmt);
      var colour := if ColorAt(attrs, StrokeColor).Some? then ColorAt(attrs, StrokeColor).value
        else if ColorAt(attrs, ForegroundColor).Some? then ColorAt(attrs, ForegroundColor).value
        else Clear;
      && Decl("-webkit-text-stroke", fmt.cgFloat(w * FontSizeOr15(attrs) / 100.0) + "px #" + fmt.hex(colour))
         in RunDecls(attrs, order, fmt)
      && (TransparentFill in stroke <==> w * FontSizeOr15(attrs) / 100.0 > 0.0)
      && (FontSizeOr15(attrs) > 0.0 ==> (TransparentFill in stroke <==> w > 0.0))
      && (forall d :: d in stroke ==> d in RunDecls(attrs, order, fmt))
  {
    StrokeEntryEffect(attrs, fmt);
    StrokeSign(attrs[StrokeWidth].number, FontSizeOr15(attrs));
    KeyDeclsInRun(attrs, order, fmt, StrokeWidth);
  }

  /** The stroke entry on its own: the outline declaration, then the transparent fill exactly for a positive width. */
  lemma StrokeEntryEffect(attrs: Attributes, fmt: Formats)
    requires NonZeroAt(attrs, StrokeWidth)
    ensures var v := attrs[StrokeWidth].number * FontSizeOr15(attrs) / 100.0;
      var stroke := KeyDecls(StrokeWidth, attrs, fmt);
      && Decl("-webkit-text-stroke", fmt.cgFloat(v) + "px #" + fmt.hex(StrokeColour(attrs))) in stroke
      && (TransparentFill in stroke <==> v > 0.0)
  {
    var v := attrs[StrokeWidth].number * FontSizeOr15(attrs) / 100.0;
    var stroke := KeyDecls(StrokeWidth, attrs, fmt);
    assert stroke == StrokeDecls(attrs[StrokeWidth].number, attrs, fmt);
    assert stroke[0] == Decl("-webkit-text-stroke", fmt.cgFloat(v) + "px #" + fmt.hex(StrokeColour(attrs)));
    assert stroke[0] in stroke;
    if v > 0.0 {
      assert stroke[1] == TransparentFill;
    } else {
      assert stroke == [stroke[0]];
    }
  }

  /** For a positive font size, the outline width has the sign of the stroke width. */
  lemma StrokeSign(w: real, size: real)
    ensures size > 0.0 ==> (w * size / 100.0 > 0.0 <==> w > 0.0)
  {
    if size > 0.0 && w <= 0.0 {
      assert w * size <= 0.0;
    }
  }

  /**
   * Shadow: `text-shadow` carries the offsets and blur radius, and the
   * shadow's own colour, else the foreground colour, else clear.
   */
  lemma ShadowEffect(attrs: Attributes, order: seq<Key>, fmt: Formats)
    requires IsKeyOrder(order, attrs)
    requires ShadowKey in attrs && attrs[ShadowKey].ShadowValue?
    ensures var s := attrs[ShadowKey].shadow;
      var colour := if s.color.Some? then s.color.value
        else if ColorAt(attrs, ForegroundColor).Some? then ColorAt(attrs, ForegroundColor).value
        else Clear;
      Decl("text-shadow", fmt.cgFloat(s.offsetWidth) + "px " + fmt.cgFloat(s.offsetHeight) + "px "
        + fmt.cgFloat(s.blurRadius) + "px #" + fmt.hex(colour)) in RunDecls(attrs, order, fmt)
  {
    KeyDeclsInRun(attrs, order, fmt, ShadowKey);
    assert KeyDecls(ShadowKey, attrs, fmt)[0] in KeyDecls(ShadowKey, attrs, fmt);
  }

  /** An ignored key contributes nothing, whatever its value. */
  lemma IgnoredKeyDecls(k: Key, attrs: Attributes, fmt: Formats)
    requires Ignored(k)
    ensures KeyDecls(k, attrs, fmt) == []
  {
  }

  /** The stroke declarations read the dictionary only through the font size and the stroke colour. */
  lemma StrokeDeclsReads(w: real, a1: Attributes, a2: Attributes, fmt: Formats)
    requires FontSizeOr15(a1) == FontSizeOr15(a2) && StrokeColour(a1) == StrokeColour(a2)
    ensures StrokeDecls(w, a1, fmt) == StrokeDecls(w, a2, fmt)
  {
  }

  /** Storing a value under an ignored key leaves every other entry's declarations as they were. */
  lemma IgnoredUpdateKeyDecls(attrs: Attributes, fmt: Formats, k: Key, v: Value, key: Key)
    requires Ignored(k) && key != k
    ensures KeyDecls(key, attrs[k := v], fmt) == KeyDecls(key, attrs, fmt)
  {
    var updated := attrs[k := v];
    if key in attrs {
      assert updated[key] == attrs[key];
      var value := attrs[key];
      if key == StrokeWidth && value.NumberValue? && value.number != 0.0 {
        assert FontSizeOr15(updated) == FontSizeOr15(attrs);
        assert StrokeColour(updated) == StrokeColour(attrs);
        StrokeDeclsReads(value.number, updated, attrs, fmt);
        assert KeyDecls(key, updated, fmt) == StrokeDecls(value.number, updated, fmt);
      } else if key == ShadowKey && value.ShadowValue? {
        assert ColorAt(updated, ForegroundColor) == ColorAt(attrs, ForegroundColor);
        assert KeyDecls(key, updated, fmt) == [ShadowDecl(value.shadow, updated, fmt)];
      }
    }
  }

  /**
   * The value stored under an ignored key changes no other entry's
   * declarations, so it changes nothing in the run.
   */
  lemma {:induction false} IgnoredValueIrrelevant(attrs: Attributes, order: seq<Key>, fmt: Formats, k: Key, v: Value)
    requires Ignored(k)
    ensures RunDecls(attrs[k := v], order, fmt) == RunDecls(attrs, order, fmt)
    decreases |order|
  {
    if order != [] {
      var n := |order| - 1;
      IgnoredValueIrrelevant(attrs, order[..n], fmt, k, v);
      if order[n] == k {
        IgnoredKeyDecls(k, attrs, fmt);
        IgnoredKeyDecls(k, attrs[k := v], fmt);
      } else {
        IgnoredUpdateKeyDecls(attrs, fmt, k, v, order[n]);
      }
    }
  }

  /** An ignored key may stand anywhere in the order: the run is the same without it. */
  lemma IgnoredPositionIrrelevant(attrs: Attributes, a: seq<Key>, b: seq<Key>, fmt: Formats, k: Key)
    requires Ignored(k)
    ensures RunDecls(attrs, a + [k] + b, fmt) == RunDecls(attrs, a + b, fmt)
  {
    assert RunDecls(attrs, [k], fmt) == [] by {
      assert [k][..0] == [];
      IgnoredKeyDecls(k, attrs, fmt);
    }
    RunDeclsAppend(attrs, a, [k], fmt);
    assert RunDecls(attrs, a + [k], fmt) == RunDecls(attrs, a, fmt);
    RunDeclsAppend(attrs, a + [k], b, fmt);
    RunDeclsAppend(attrs, a, b, fmt);
  }

  lemma InsertDistinct(order: seq<Key>, k: Key, j: nat)
    requires Distinct(order) && k !in order && j <= |order|
    ensures Distinct(order[..j] + [k] + order[j..])
  {
    var o := order[..j] + [k] + order[j..];
    forall x, y | 0 <= x < y < |o|
      ensures o[x] != o[y]
    {
      if y < j {
        assert o[x] == order[x] && o[y] == order[y];
      } else if x < j && y == j {
        assert o[x] == order[x];
      } else if x < j {
        assert o[x] == order[x] && o[y] == order[y - 1];
      } else if x == j {
        assert o[y] == order[y - 1];
      } else {
        assert o[x] == order[x - 1] && o[y] == order[y - 1];
      }
    }
  }

  /** Inserting a new key anywhere in an order of a dictionary gives an order of the enlarged dictionary. */
  lemma InsertKeyOrder(attrs: Attributes, order: seq<Key>, k: Key, v: Value, j: nat)
    requires IsKeyOrder(order, attrs) && k !in attrs && j <= |order|
    ensures IsKeyOrder(order[..j] + [k] + order[j..], attrs[k := v])
  {
    var o := order[..j] + [k] + order[j..];
    InsertDistinct(order, k, j);
    forall key | key in attrs[k := v]
      ensures key in o
    {
      if key != k {
        var i :| 0 <= i < |order| && order[i] == key;
        if i < j { assert o[i] == key; } else { assert o[i + 1] == key; }
      } else {
        assert o[j] == k;
      }
    }
    forall i | 0 <= i < |o|
      ensures o[i] in attrs[k := v]
    {
      if i < j { assert o[i] == order[i]; } else if i > j { assert o[i] == order[i - 1]; }
    }
  }

  /**
   * Adding an entry under an ignored key, at any place in the dictionary's
   * order, leaves the run's declarations, and so its CSS, as they were;
   * read from right to left, so does removing one.
   */
  lemma IgnoredEntryIrrelevant(attrs: Attributes, order: seq<Key>, fmt: Formats, k: Key, v: Value, j: nat)
    requires IsKeyOrder(order, attrs) && k !in attrs
    requires Ignored(k) && j <= |order|
    ensures IsKeyOrder(order[..j] + [k] + order[j..], attrs[k := v])
    ensures RunDecls(attrs[k := v], order[..j] + [k] + order[j..], fmt) == RunDecls(attrs, order, fmt)
  {
    InsertKeyOrder(attrs, order, k, v, j);
    IgnoredValueIrrelevant(attrs, order[..j] + [k] + order[j..], fmt, k, v);
    IgnoredPositionIrrelevant(attrs, order[..j], order[j..], fmt, k);
    TakeDropJoin(order, j);
  }

  lemma RemoveAtDistinct(order: seq<Key>, j: nat)
    requires Distinct(order) && j < |order|
    ensures Distinct(order[..j] + order[j + 1..])
    ensures forall x :: x in order[..j] + order[j + 1..] <==> x in order && x != order[j]
  {
    var r := order[..j] + order[j + 1..];
    forall x, y | 0 <= x < y < |r|
      ensures r[x] != r[y]
    {
      var ox := if x < j then x else x + 1;
      var oy := if y < j then y else y + 1;
      assert r[x] == order[ox] && r[y] == order[oy];
    }
    forall x
      ensures x in r <==> x in order && x != order[j]
    {
      if x in r {
        var i :| 0 <= i < |r| && r[i] == x;
        var oi := if i < j then i else i + 1;
        assert order[oi] == x;
      }
      if x in order && x != order[j] {
        var i :| 0 <= i < |order| && order[i] == x;
        if i < j { assert r[i] == x; } else { assert r[i - 1] == x; }
      }
    }
  }

  lemma FirstIsMember(keys: seq<Key>)
    requires keys != []
    ensures keys[0] in keys
  {
  }

  /** Taking one key out of an order takes exactly that entry's declarations out of the run. */
  lemma RunDeclsRemoveAt(attrs: Attributes, order: seq<Key>, j: nat, fmt: Formats)
    requires j < |order|
    ensures multiset(RunDecls(attrs, order, fmt))
      == multiset(RunDecls(attrs, order[..j] + order[j + 1..], fmt)) + multiset(KeyDecls(order[j], attrs, fmt))
  {
    var k := order[j];
    assert order == order[..j] + [k] + order[j + 1..];
    RunDeclsAppend(attrs, order[..j] + [k], order[j + 1..], fmt);
    RunDeclsAppend(attrs, order[..j], [k], fmt);
    RunDeclsAppend(attrs, order[..j], order[j + 1..], fmt);
    assert [k][..0] == [];
  }

  /**
   * Two orders listing the same keys once each give the same declarations,
   * up to their order.
   */
  lemma {:induction false} RunDeclsPermutation(attrs: Attributes, o1: seq<Key>, o2: seq<Key>, fmt: Formats)
    requires Distinct(o1) && Distinct(o2)
    requires forall k :: k in o1 <==> k in o2
    ensures multiset(RunDecls(attrs, o1, fmt)) == multiset(RunDecls(attrs, o2, fmt))
    decreases |o1|
  {
    if o1 == [] {
      if o2 != [] {
        FirstIsMember(o2);
        assert false;
      }
    } else {
      var n := |o1| - 1;
      var k := o1[n];
      assert k in o2;
      var j :| 0 <= j < |o2| && o2[j] == k;
      var rest1 := o1[..n] + o1[n + 1..];
      var rest2 := o2[..j] + o2[j + 1..];
      RemoveAtDistinct(o1, n);
      RemoveAtDistinct(o2, j);
      forall x
        ensures x in rest1 <==> x in rest2
      {
        assert x in rest1 <==> x in o1 && x != k;
        assert x in rest2 <==> x in o2 && x != k;
      }
      RunDeclsPermutation(attrs, rest1, rest2, fmt);
      RunDeclsRemoveAt(attrs, o1, n, fmt);
      RunDeclsRemoveAt(attrs, o2, j, fmt);
    }
  }

  /**
   * The dictionary's iteration order is unspecified; whichever order it
   * yields, a run produces the same declarations, each as often, only
   * possibly in another sequence.
   */
  lemma RunDeclsOrderIndependent(attrs: Attributes, o1: seq<Key>, o2: seq<Key>, fmt: Formats)
    requires IsKeyOrder(o1, attrs) && IsKeyOrder(o2, attrs)
    ensures multiset(RunDecls(attrs, o1, fmt)) == multiset(RunDecls(attrs, o2, fmt))
  {
    RunDeclsPermutation(attrs, o1, o2, fmt);
  }
}
