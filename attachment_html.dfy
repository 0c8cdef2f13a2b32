/**
 * `NSTextAttachment.rz2html`: the HTML tag that stands for an attachment in
 * the encoded document, by the kind of media it carries (image, audio or
 * video), its source address and, for a video, its poster image.
 *
 * `ParseMediaTag` reads such a tag back; the round trip shows that the tag
 * keeps the kind, the source and the poster whenever these hold no double
 * quote (the encoder writes them between double quotes without escaping).
 */
module AttachmentHtml {
  import opened Wrappers
  import opened Text

  /** The media kind of an attachment (`RZAttachmentInfo.type`). */
  datatype MediaKind = Image | Audio | Video

  /** The information an attachment carries: its kind, its source and its poster, each optional. */
  datatype AttachmentInfo = AttachmentInfo(kind: MediaKind, src: Option<string>, poster: Option<string>)

  // The literal parts of the three tags, split where the encoder interpolates.
  const ImageOpen: string := "<img src=\""
  const ImageClose: string := "\" style=\"max-width:100%;\">"
  const AudioOpen: string := "<audio src=\""
  const AudioClose: string := "\"" + " controls=\"controls\" style=\"max-width:100%;\"></audio>"
  const VideoOpen: string := "<video src=\""
  const PosterSep: string := "\" poster=\""
  const VideoClose: string := "\"" + " controls=\"controls\" style=\"max-width:100%;\"></video>"

  /**
   * The tag for an attachment: nothing when it carries no attachment
   * information; a missing source or poster is written as the empty string.
   */
  function AttachmentTag(info: Option<AttachmentInfo>): (html: string)
    ensures html == "" <==> info.None?
    ensures info.Some? ==> html[0] == '<' && html[|html| - 1] == '>'
  {
    if info.None? then ""
    else
      var i := info.value;
      match i.kind
      case Audio => AudioOpen + i.src.GetOr("") + AudioClose
      case Image => ImageOpen + i.src.GetOr("") + ImageClose
      case Video => VideoOpen + i.src.GetOr("") + PosterSep + i.poster.GetOr("") + VideoClose
  }

  /**
   * A missing source or poster is written as an empty attribute value, not
   * left out: the tag is the one for an empty source or poster.
   */
  lemma MissingIsEmpty(info: AttachmentInfo)
    ensures AttachmentTag(Some(info)) == AttachmentTag(Some(AttachmentInfo(info.kind, Some(info.src.GetOr("")), Some(info.poster.GetOr("")))))
  {
  }

  /** What a tag shows of an attachment: its kind, its source, and its poster for a video. */
  datatype Media = Media(kind: MediaKind, src: string, poster: string)

  /** The part of an attachment the tag keeps: a poster is written for a video only. */
  function Shown(info: AttachmentInfo): Media {
    Media(info.kind, info.src.GetOr(""), if info.kind == Video then info.poster.GetOr("") else "")
  }

  /** The longest prefix of `s` without a double quote. */
  function UntilQuote(s: string): (r: string)
    ensures IsPrefix(r, s) && '"' !in r
    ensures |r| < |s| ==> s[|r|] == '"'
  {
    if s == [] || s[0] == '"' then [] else [s[0]] + UntilQuote(s[1..])
  }

  lemma {:induction false} UntilQuoteSplit(a: string, b: string)
    requires '"' !in a && b != [] && b[0] == '"'
    ensures UntilQuote(a + b) == a
    decreases |a|
  {
    if a == [] {
      assert a + b == b;
    } else {
      assert (a + b)[1..] == a[1..] + b;
      UntilQuoteSplit(a[1..], b);
    }
  }

  /** Reads the source and the closing part of an image or audio tag. */
  function ParseTail(kind: MediaKind, close: string, rest: string): Option<Media> {
    var src := UntilQuote(rest);
    if rest[|src|..] == close then Some(Media(kind, src, "")) else None
  }

  /** Reads the source, the poster and the closing part of a video tag. */
  function ParseVideoTail(rest: string): Option<Media> {
    var src := UntilQuote(rest);
    var after := rest[|src|..];
    if !IsPrefix(PosterSep, after) then None
    else
      var tail := after[|PosterSep|..];
      var poster := UntilQuote(tail);
      if tail[|poster|..] == VideoClose then Some(Media(Video, src, poster)) else None
  }

  /** Reads back a tag written by `AttachmentTag`; anything else gives `None`. */
  function ParseMediaTag(html: string): Option<Media> {
    if IsPrefix(ImageOpen, html) then ParseTail(Image, ImageClose, html[|ImageOpen|..])
    else if IsPrefix(AudioOpen, html) then ParseTail(Audio, AudioClose, html[|AudioOpen|..])
    else if IsPrefix(VideoOpen, html) then ParseVideoTail(html[|VideoOpen|..])
    else None
  }

  lemma ParseTailOf(kind: MediaKind, close: string, src: string)
    requires '"' !in src && close != [] && close[0] == '"'
    ensures ParseTail(kind, close, src + close) == Some(Media(kind, src, ""))
  {
    UntilQuoteSplit(src, close);
    assert (src + close)[|src|..] == close;
  }

  lemma ParseVideoTailOf(src: string, poster: string)
    requires '"' !in src && '"' !in poster
    ensures ParseVideoTail(src + (PosterSep + (poster + VideoClose))) == Some(Media(Video, src, poster))
  {
    var tail := poster + VideoClose;
    var after := PosterSep + tail;
    var rest := src + after;
    UntilQuoteSplit(src, after);
    assert rest[|src|..] == after;
    PrefixOfConcat(PosterSep, tail);
    assert after[|PosterSep|..] == tail;
    UntilQuoteSplit(poster, VideoClose);
    assert tail[|poster|..] == VideoClose;
  }

  /** A tag whose second character differs from that of an opening never starts with it. */
  lemma NotPrefixAt1(open: string, html: string)
    requires |open| > 1 && |html| > 1 && html[1] != open[1]
    ensures !IsPrefix(open, html)
  {
  }

  lemma ParseImageTag(src: string)
    requires '"' !in src
    ensures ParseMediaTag(ImageOpen + src + ImageClose) == Some(Media(Image, src, ""))
  {
    var html := ImageOpen + src + ImageClose;
    assert html == ImageOpen + (src + ImageClose);
    PrefixOfConcat(ImageOpen, src + ImageClose);
    assert html[|ImageOpen|..] == src + ImageClose;
    ParseTailOf(Image, ImageClose, src);
  }

  lemma ParseAudioTag(src: string)
    requires '"' !in src
    ensures ParseMediaTag(AudioOpen + src + AudioClose) == Some(Media(Audio, src, ""))
  {
    var html := AudioOpen + src + AudioClose;
    assert html == AudioOpen + (src + AudioClose);
    assert html[1] == 'a';
    NotPrefixAt1(ImageOpen, html);
    PrefixOfConcat(AudioOpen, src + AudioClose);
    assert html[|AudioOpen|..] == src + AudioClose;
    ParseTailOf(Audio, AudioClose, src);
  }

  lemma ParseVideoTag(src: string, poster: string)
    requires '"' !in src && '"' !in poster
    ensures ParseMediaTag(VideoOpen + src + PosterSep + poster + VideoClose) == Some(Media(Video, src, poster))
  {
    var rest := src + (PosterSep + (poster + VideoClose));
    var html := VideoOpen + src + PosterSep + poster + VideoClose;
    assert html == VideoOpen + rest;
    assert html[1] == 'v';
    NotPrefixAt1(ImageOpen, html);
    NotPrefixAt1(AudioOpen, html);
    PrefixOfConcat(VideoOpen, rest);
    assert html[|VideoOpen|..] == rest;
    ParseVideoTailOf(src, poster);
  }

  /**
   * Round trip: reading back the tag of an attachment whose source and
   * poster hold no double quote gives its kind, its source and, for a video,
   * its poster, with a missing one read as empty.
   */
  lemma ParseAttachmentTag(info: AttachmentInfo)
    requires '"' !in info.src.GetOr("") && '"' !in info.poster.GetOr("")
    ensures ParseMediaTag(AttachmentTag(Some(info))) == Some(Shown(info))
  {
    match info.kind
    case Image => ParseImageTag(info.src.GetOr(""));
    case Audio => ParseAudioTag(info.src.GetOr(""));
    case Video => ParseVideoTag(info.src.GetOr(""), info.poster.GetOr(""));
  }

  /**
   * Two attachments whose sources and posters hold no double quote get the
   * same tag only when the tag shows the same kind, source and poster.
   */
  lemma AttachmentTagInjective(a: AttachmentInfo, b: AttachmentInfo)
    requires '"' !in a.src.GetOr("") && '"' !in a.poster.GetOr("")
    requires '"' !in b.src.GetOr("") && '"' !in b.poster.GetOr("")
    ensures AttachmentTag(Some(a)) == AttachmentTag(Some(b)) <==> Shown(a) == Shown(b)
  {
    ParseAttachmentTag(a);
    ParseAttachmentTag(b);
  }
}
