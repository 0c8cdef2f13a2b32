# RZCss: style-to-CSS and attachment-to-HTML encoding, modelled in Dafny

RZRichTextView encodes an attributed string as HTML. This project models the
encoding layer in `RZRichTextView/Classes/RZCss.swift` and proves properties
of it:

- **`NSParagraphStyle.isol` / `isul`** scan the paragraph's text lists. Each
  reports whether some marker format contains the decimal marker (ordered
  list) or the disc marker (unordered list). Modelled as a method with a
  `for` loop that sets a flag, like the source's `forEach`.
- **`NSParagraphStyle.rz2cssStyle(font:)`** appends the paragraph's
  declarations to a list of fragments and joins them. The declarations are,
  in order: margin, optional alignment, optional indent, optional font size.
  Modelled as a method proved equal to the rendering of a declaration list
  (`ParagraphDecls`).
- **`[NSAttributedString.Key: Any].rz2cssStyle`** walks the attribute
  dictionary and appends one fragment per recognised key. Modelled as a
  method over the keys in iteration order, proved equal to the rendering of
  `RunDecls`. The font, stroke and shadow cases are helper methods
  (`AppendFontCss`, `AppendStrokeCss`, `AppendShadowCss`); the colour, kern,
  baseline and expansion cases append their single fragment in
  `AppendKeyCss` itself.
- **`NSTextAttachment.rz2html`** returns the `<img>`, `<audio>` or `<video>`
  tag of an attachment. Modelled as a function, with a reader
  (`ParseMediaTag`) as the partner for a round-trip lemma.
- **`UIFont.fontType`** strips the spaces from the font description and looks
  for the bold and italic markers. Modelled as a function with lemmas about
  it.

Modules:

| module | contents |
|---|---|
| `Wrappers` | `Option` |
| `Text` | substring search, space removal, concatenation of fragments |
| `StyleModel` | the shared entities: attribute keys and values, paragraph style, declarations and their rendering |
| `FontClassifier` | `fontType` |
| `ParagraphCss` | the paragraph side |
| `RunCss` | the run side |
| `AttachmentHtml` | `rz2html` |

The platform's text conversions are given functions, carried in a `Formats`
record: CGFloat and NSNumber interpolation, `UIColor.qhexString` and
`HtmlTransformRZ.expansionTrans`. Every statement holds whatever text they
produce.

The dictionary's iteration order is an input: a sequence listing each key
once (`IsKeyOrder`). `RunDeclsOrderIndependent` shows that only the sequence
of the output depends on it, never which declarations appear. The sequence
still matters to a browser: with a hollow stroke and a foreground colour, the
run holds both `color:#00000000` and `color:#{hex}`, and whichever of the
two keys the dictionary yields later decides the text's fill colour.

The model follows the code in these details:

- The font classifier removes only the space character `' '`, not all
  whitespace.
- The font classifier matches only the spellings `bold`/`Bold` and
  `italic`/`Italic`; it does not compare case-insensitively.
- The paragraph `text-indent` carries `tailIndent`, not a first-line indent.
- The margin's right component is written `0.0px`, not `0`.

## Model

| member | source | states |
|---|---|---|
| ParagraphCss.ListsUseMarker | RZRichTextView/Classes/RZCss.swift:14-20 | the flag the loop leaves is true exactly when some text list's marker format contains the marker (false for no lists) |
| ParagraphCss.IsOrdered | RZRichTextView/Classes/RZCss.swift:13-21 | `isol` holds exactly when some text list's marker format contains the decimal marker |
| ParagraphCss.IsUnordered | RZRichTextView/Classes/RZCss.swift:23-31 | `isul` holds exactly when some text list's marker format contains the disc marker |
| ParagraphCss.MarkersDistinct | RZRichTextView/Classes/RZCss.swift:16-26 | neither marker string contains the other, so the two flags are independent |
| ParagraphCss.PlainListKinds | RZRichTextView/Classes/RZCss.swift:13-31 | for plain decimal/disc lists: ordered iff some list is decimal, unordered iff some list is disc; both or neither are possible |
| ParagraphCss.AppendAlignment | RZRichTextView/Classes/RZCss.swift:36-42 | centre and right append `text-align:center;` / `text-align:right;`; left, justified and natural append nothing |
| ParagraphCss.ParagraphStyleCss | RZRichTextView/Classes/RZCss.swift:33-48 | the joined fragments are the rendering of margin, alignment, indent and font-size declarations, in that order |
| ParagraphCss.ParagraphDeclOrder | RZRichTextView/Classes/RZCss.swift:34-47 | the margin comes first, always; then alignment, indent and font size, each at most once, in that order; 1 to 4 declarations |
| ParagraphCss.ParagraphStartsWithMargin | RZRichTextView/Classes/RZCss.swift:35 | the paragraph CSS always begins with `margin:{before}px 0.0px {after}px {headIndent}px;` |
| ParagraphCss.ParagraphAlignment | RZRichTextView/Classes/RZCss.swift:36-42 | `text-align:center` iff centred, `text-align:right` iff right-aligned, no `text-align` for other alignments |
| ParagraphCss.ParagraphIndent | RZRichTextView/Classes/RZCss.swift:43 | `text-indent` appears iff the tail indent is non-zero, and then carries the tail indent |
| ParagraphCss.ParagraphFontSize | RZRichTextView/Classes/RZCss.swift:44-46 | `font-size` appears iff a font is given, and then it is the last declaration and carries the point size |
| FontClassifier.Classify | RZRichTextView/Classes/RZCss.swift:144-154 | `fontType`: bold (or bold-italic) iff the space-free description holds `font-weight:bold` or `font-weight:Bold`; italic (or bold-italic) iff it holds `font-style:italic` or `font-style:Italic`; which fixes each of the four classes |
| FontClassifier.ClassifyIgnoresSpaces | RZRichTextView/Classes/RZCss.swift:145 | classifying a description with its spaces already stripped gives the same class |
| FontClassifier.BoldDeclarationClassifiesBold | RZRichTextView/Classes/RZCss.swift:145-146 | a description holding `font-weight: bold` (with its space) classifies as bold, whatever surrounds it |
| FontClassifier.ItalicDeclarationClassifiesItalic | RZRichTextView/Classes/RZCss.swift:145-147 | a description holding `font-style: italic` (with its space) classifies as italic, whatever surrounds it |
| FontClassifier.ClassifyMonotone | RZRichTextView/Classes/RZCss.swift:145-147 | text added around a description never removes bold or italic |
| FontClassifier.ShortDescriptionIsNormal | RZRichTextView/Classes/RZCss.swift:148-153 | a description shorter than every marker classifies as normal |
| RunCss.AppendFontCss | RZRichTextView/Classes/RZCss.swift:59-73 | the font case appends `font-size:{pt}px;` then the weight/slant declarations of the font's class |
| RunCss.AppendStrokeCss | RZRichTextView/Classes/RZCss.swift:80-92 | the stroke case appends the stroke declarations: width × size / 100 with size 15 by default, three-way colour fallback, transparent fill when positive |
| RunCss.AppendShadowCss | RZRichTextView/Classes/RZCss.swift:93-99 | the shadow case appends `text-shadow` with offsets, blur radius and the colour fallback |
| RunCss.AppendKeyCss | RZRichTextView/Classes/RZCss.swift:55-107 | one key's step appends exactly the rendering of that entry's declarations, nothing for ignored keys or values of the wrong kind |
| RunCss.RunStyleCss | RZRichTextView/Classes/RZCss.swift:52-110 | the joined fragments are the rendering of every entry's declarations, in the dictionary's order |
| RunCss.RunDeclsAppend | RZRichTextView/Classes/RZCss.swift:54 | the declarations of a walk over `a + b` are those of `a` followed by those of `b` |
| RunCss.KeyDeclsInRun | RZRichTextView/Classes/RZCss.swift:54-107 | every declaration an entry contributes is in the run |
| RunCss.RunDeclOrigin | RZRichTextView/Classes/RZCss.swift:54-107 | every declaration of a run comes from the entry of one of its keys |
| RunCss.SoleEmitter | RZRichTextView/Classes/RZCss.swift:54-107 | a property only one key can set appears in the run iff that key's entry sets it |
| RunCss.FontEntry | RZRichTextView/Classes/RZCss.swift:59-73 | the font entry sets `font-size` iff the value is a font (then `font-size:{pt}px`), `font-weight:bold` iff it is bold, `font-style:italic` iff it is italic |
| RunCss.RunFontDecls | RZRichTextView/Classes/RZCss.swift:59-73 | in the whole run: `font-size` iff a font, and then `font-size:{pt}px`; `font-weight:bold` iff its description holds a bold marker; `font-style:italic` iff an italic marker |
| RunCss.ForegroundEntry | RZRichTextView/Classes/RZCss.swift:74-75 | the foreground entry sets `color` iff its value is a colour, and then `color:#{hex}` |
| RunCss.BackgroundEntry | RZRichTextView/Classes/RZCss.swift:76-77 | the background entry sets `background-color` iff its value is a colour, and then `background-color:#{hex}` |
| RunCss.StrokeFillEntry | RZRichTextView/Classes/RZCss.swift:80-91 | the stroke entry sets `color` exactly for a hollow outline: a non-zero width with width × size / 100 > 0 |
| RunCss.RunColorDecls | RZRichTextView/Classes/RZCss.swift:74-91 | `background-color:#{hex}` iff a background colour; `color:#{hex}` for a foreground colour; some `color` declaration iff a foreground colour or a hollow stroke (stroke width × size / 100 > 0) |
| RunCss.KernEntry | RZRichTextView/Classes/RZCss.swift:78-79 | the kern entry sets `word-spacing` iff its value is a non-zero number, and then `word-spacing:{n}px` |
| RunCss.BaselineEntry | RZRichTextView/Classes/RZCss.swift:100-101 | the baseline entry sets `vertical-align` iff its value is a non-zero number, and then `vertical-align:{n}px` |
| RunCss.ExpansionEntry | RZRichTextView/Classes/RZCss.swift:102-105 | the expansion entry sets `transform` iff its value is a non-zero number, and then exactly `transform:scaleX({x})`, `transform-origin: 0 0`, `display:inline-block` |
| RunCss.RunNumberDecls | RZRichTextView/Classes/RZCss.swift:78-105 | in the whole run: `word-spacing`, `vertical-align` and `transform` appear iff kern, baseline offset and expansion are non-zero numbers, and then carry `{n}px`, `{n}px` and the three expansion declarations |
| RunCss.StrokeEntry | RZRichTextView/Classes/RZCss.swift:80-81 | the stroke entry sets `-webkit-text-stroke` iff its width is a non-zero number |
| RunCss.RunStrokePresent | RZRichTextView/Classes/RZCss.swift:80-92 | in the whole run: a stroke declaration iff the stroke width is a non-zero number |
| RunCss.StrokeEntryEffect | RZRichTextView/Classes/RZCss.swift:82-91 | the stroke entry holds the outline `{v}px #{hex}` with v = width × (font size or 15) / 100 and the stroke colour fallback, and the transparent fill iff v > 0 |
| RunCss.StrokeEffect | RZRichTextView/Classes/RZCss.swift:82-91 | stroke width × font size (15 by default) / 100, colour stroke → foreground → clear; transparent fill iff that product is positive, so for a positive size iff the width is positive |
| RunCss.ShadowEntry | RZRichTextView/Classes/RZCss.swift:93-94 | the shadow entry sets `text-shadow` iff its value is a shadow |
| RunCss.RunShadowPresent | RZRichTextView/Classes/RZCss.swift:93-99 | in the whole run: `text-shadow` iff the run has a shadow |
| RunCss.ShadowEffect | RZRichTextView/Classes/RZCss.swift:95-98 | `text-shadow` carries width, height and blur radius, colour shadow → foreground → clear |
| RunCss.IgnoredKeyDecls | RZRichTextView/Classes/RZCss.swift:56-106 | paragraph style, strikethrough, underline, attachment, link, ligature, obliqueness and unknown keys contribute nothing |
| RunCss.IgnoredUpdateKeyDecls | RZRichTextView/Classes/RZCss.swift:82-97 | the value under an ignored key changes no other entry's declarations, including those that read other keys |
| RunCss.IgnoredValueIrrelevant | RZRichTextView/Classes/RZCss.swift:56-106 | the value under an ignored key changes nothing in the run |
| RunCss.IgnoredPositionIrrelevant | RZRichTextView/Classes/RZCss.swift:54-106 | an ignored key anywhere in the order changes nothing in the run |
| RunCss.IgnoredEntryIrrelevant | RZRichTextView/Classes/RZCss.swift:54-106 | adding (or removing) an entry under an ignored key, at any place in the order, leaves the run's declarations as they were |
| RunCss.RunDeclsRemoveAt | RZRichTextView/Classes/RZCss.swift:54 | taking one key out of the order takes exactly that entry's declarations out of the run |
| RunCss.RunDeclsPermutation | RZRichTextView/Classes/RZCss.swift:54 | two orders listing the same keys once each give the same declarations, as a multiset |
| RunCss.RunDeclsOrderIndependent | RZRichTextView/Classes/RZCss.swift:54 | whichever iteration order the dictionary yields, the run has the same declarations, each as often |
| AttachmentHtml.AttachmentTag | RZRichTextView/Classes/RZCss.swift:114-124 | empty iff there is no attachment information; otherwise a tag from `<` to `>` |
| AttachmentHtml.MissingIsEmpty | RZRichTextView/Classes/RZCss.swift:118-122 | a missing source or poster is written as an empty attribute value, not omitted |
| AttachmentHtml.ParseImageTag | RZRichTextView/Classes/RZCss.swift:119-120 | the image template reads back as an image with its source |
| AttachmentHtml.ParseAudioTag | RZRichTextView/Classes/RZCss.swift:117-118 | the audio template reads back as audio with its source |
| AttachmentHtml.ParseVideoTag | RZRichTextView/Classes/RZCss.swift:121-122 | the video template reads back as a video with its source and poster |
| AttachmentHtml.ParseAttachmentTag | RZRichTextView/Classes/RZCss.swift:114-124 | round trip: the tag of an attachment without double quotes in its source and poster reads back as its kind, source and (video only) poster |
| AttachmentHtml.AttachmentTagInjective | RZRichTextView/Classes/RZCss.swift:114-124 | two such attachments get the same tag only when kind, source and (video) poster agree |

## Left out

- The static fonts `rznormalFont`, `rzitalicFont`, `rzboldFont` and `rzboldItalicFont` (`RZCss.swift:128-135`) are left out. They are platform font construction with shear matrices and contain no encoding logic.
- The exact text of CGFloat and NSNumber interpolation, `UIColor.qhexString` (RZColorfulSwift) and `HtmlTransformRZ.expansionTrans` are not part of this model. They are given functions (`Formats`), so nothing is proved about the digits they print.
- Numbers are `real`; the model does not capture floating-point rounding of `width * size / 100`.
- The model does not capture the conversion to `Float` in `floatValue != 0`. A non-zero number is taken as non-zero, so a double small enough to round to a `Float` zero is not modelled.
- The model does not fix the dictionary's iteration order; it takes the order as an input. Properties of the whole run are stated as presence or absence of a declaration, or as a multiset.
- Swift's `as?` casts are modelled by a tagged `Value`: each cast succeeds on exactly one variant, and `Other` stands for values no cast accepts.
- The `@unknown default` alignment case (`RZCss.swift:40`) is left out: `Alignment` lists the five known cases only.
- Attachment information is taken as an `Option` input. `rzattachmentInfo` is defined outside `RZCss.swift` and is not part of this model.
- AttachmentHtml.ParseAttachmentTag: the round trip requires a source and poster without `"`. The encoder does not escape them, so a quote inside would end the attribute early.
- Strings are sequences of Unicode scalar values. Swift's `contains` and `replacingOccurrences(of:with:)` compare by Characters and canonical equivalence. The two differ only when a combining mark follows a character of a marker; the markers themselves are ASCII.
- HTML decoding and whole-document encoding do not appear in `RZCss.swift` and are not part of this model. `ParseMediaTag` is a reader for the three tag templates only.
