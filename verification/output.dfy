/** How a resolved answer is delivered: as a rendered image with an optional
    overflow link, or as trimmed HTML text. */
module Output {
  import opened Wrappers
  import opened JsString

  /** Longest text rendered into an image, and the line count above which an
      image answer also goes to the paste service. */
  const ImageTextLimit := 3000
  const ImageLineLimit := 190
  /** Sanitized length above which a trimmed text answer is cut. */
  const TextTrimLimit := 500

  const ReadMorePrefix := "Read more on: "
  const SeeMoreSeparator := "...\n\nSee more on: "

  /** The foreign helpers: `sanitize`, `trimHtml(limit, html)` and the paste
      upload, which yields a link or a falsy failure value (`None`, or an
      empty string). */
  datatype Formatting = Formatting(
    sanitize: string -> string,
    trimHtml: (nat, string) -> string,
    upload: string -> Option<string>)

  /** `content.length > 3000 || content.split('\n').length > 190`. */
  predicate TooLong(content: string)
  {
    |content| > ImageTextLimit || |Split(content, '\n')| > ImageLineLimit
  }

  /** The image test counts lines as newlines plus one: an image answer
      overflows exactly when it is longer than 3000 characters or has at
      least 190 newlines. */
  lemma TooLongByNewlines(content: string)
    ensures TooLong(content) <==> |content| > 3000 || Count(content, '\n') >= 190
  {
    SplitCount(content, '\n');
  }

  /** What `sendImage` sends: the text rendered into the photo, its caption,
      and the text handed to the paste service, if any. */
  datatype Photo = Photo(rendered: string, caption: string, uploaded: Option<string>)

  /** A paste link usable in a template: JavaScript's `fullCode || url` takes
      the link only when it is a non-empty string. */
  predicate Truthy(link: Option<string>)
  {
    link.Some? && link.value != ""
  }

  /** `sendImage`: render the first 3000 characters; when the content is too
      long, upload all of it and point the caption at the paste (or at the
      source page if the upload gave nothing). */
  function SendImage(content: string, url: string, fmt: Formatting): (p: Photo)
    ensures p.rendered <= content
    ensures |p.rendered| == if |content| <= ImageTextLimit then |content| else ImageTextLimit
    ensures p.uploaded == if TooLong(content) then Some(content) else None
    ensures p.caption != "" <==> TooLong(content)
    ensures TooLong(content) ==>
      p.caption == ReadMorePrefix + (if Truthy(fmt.upload(content)) then fmt.upload(content).value else url)
  {
    var tooLong := TooLong(content);
    var pasted := if tooLong then Some(fmt.upload(content)) else None;
    var rendered := if |content| <= ImageTextLimit then content else content[..ImageTextLimit];
    var caption :=
      if tooLong then ReadMorePrefix + (if Truthy(pasted.value) then pasted.value.value else url)
      else "";
    Photo(rendered, caption, if tooLong then Some(content) else None)
  }

  /** An image answer that fits is rendered whole, with no caption and no upload. */
  lemma ShortImageWhole(content: string, url: string, fmt: Formatting)
    requires |content| <= 3000 && Count(content, '\n') < 190
    ensures SendImage(content, url, fmt) == Photo(content, "", None)
  {
    TooLongByNewlines(content);
  }

  /** A 4000-character answer is rendered from its first 3000 characters and
      uploaded; the caption names the paste, or the page if the upload failed. */
  lemma LongImageOverflows(content: string, url: string, fmt: Formatting)
    requires |content| == 4000
    ensures SendImage(content, url, fmt).rendered == content[..3000]
    ensures SendImage(content, url, fmt).uploaded == Some(content)
    ensures !Truthy(fmt.upload(content)) ==> SendImage(content, url, fmt).caption == ReadMorePrefix + url
  {
  }

  /** `sendText`: the sanitized content, cut to `trimHtml(500, ...)` plus a
      "See more on" link when trimming is asked for and it is longer than 500. */
  function SendText(content: string, url: string, trim: bool, fmt: Formatting): string
  {
    var clean := fmt.sanitize(content);
    if trim && |clean| > TextTrimLimit then fmt.trimHtml(TextTrimLimit, clean) + SeeMoreSeparator + url
    else clean
  }

  /** Without trimming the sanitized content is sent verbatim, whatever its length. */
  lemma UntrimmedVerbatim(content: string, url: string, fmt: Formatting)
    ensures SendText(content, url, false, fmt) == fmt.sanitize(content)
  {
  }

  /** A sanitized answer of at most 500 characters is sent verbatim, trimmed or not. */
  lemma ShortTextVerbatim(content: string, url: string, trim: bool, fmt: Formatting)
    requires |fmt.sanitize(content)| <= 500
    ensures SendText(content, url, trim, fmt) == fmt.sanitize(content)
  {
  }

  /** A trimmed answer starts with `trimHtml`'s cut of the sanitized text and
      ends with the separator and the source link. */
  lemma TrimmedShape(content: string, url: string, fmt: Formatting)
    requires |fmt.sanitize(content)| > 500
    ensures var cut := fmt.trimHtml(500, fmt.sanitize(content));
      var html := SendText(content, url, true, fmt);
      html[..|cut|] == cut && html[|cut|..] == SeeMoreSeparator + url
  {
  }

  /** When `trimHtml` keeps 500 characters, a trimmed answer is 500 characters
      plus the separator and the link, and ends with the source link. */
  lemma TrimmedLength(content: string, url: string, fmt: Formatting)
    requires |fmt.sanitize(content)| > 500
    requires |fmt.trimHtml(500, fmt.sanitize(content))| == 500
    ensures |SendText(content, url, true, fmt)| == 500 + |SeeMoreSeparator| + |url|
    ensures url <= SendText(content, url, true, fmt)[500 + |SeeMoreSeparator|..]
  {
  }
}
