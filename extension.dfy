/**
 * The browser extension's content script: `clampText`, which cuts page text to the requested
 * size with a marker, and the answer `extract` builds from what it read off the page. The
 * page reads themselves (Readability, the DOM, the media-duration probe) are inputs.
 */
module ExtensionExtract {
  import opened Wrappers
  import opened Text

  /** The marker appended to cut text: two newlines and `[TRUNCATED]`, 13 characters. */
  const TruncationMarker: string := "\n\n[TRUNCATED]"

  /** Room kept for the marker when cutting. */
  const MarkerAllowance: int := 24

  datatype Clamped = Clamped(text: string, truncated: bool)

  /** `Math.max(0, maxChars - 24)`, the length of the kept prefix. */
  function KeptLength(maxChars: int): (n: nat) {
    if maxChars - MarkerAllowance > 0 then maxChars - MarkerAllowance else 0
  }

  /** `clampText`. */
  function ClampText(text: string, maxChars: int): (r: Clamped)
    ensures |text| <= maxChars ==> r == Clamped(text, false)
    ensures |text| > maxChars ==>
              && r.truncated
              && r.text == text[..KeptLength(maxChars)] + TruncationMarker
  {
    if |text| <= maxChars then Clamped(text, false)
    else Clamped(text[..KeptLength(maxChars)] + TruncationMarker, true)
  }

  /**
   * Cut text is a prefix of the input followed by the marker; with room for the marker
   * (`maxChars >= 24`) it is `maxChars - 11` characters long, so within the limit.
   */
  lemma ClampTextLength(text: string, maxChars: int)
    requires |text| > maxChars
    ensures var r := ClampText(text, maxChars).text;
      && StartsWith(r, text[..KeptLength(maxChars)]) && EndsWith(r, TruncationMarker)
      && |r| == KeptLength(maxChars) + 13
      && (maxChars >= MarkerAllowance ==> |r| == maxChars - 11 && |r| <= maxChars)
  {
    var r := ClampText(text, maxChars).text;
    var k := KeptLength(maxChars);
    assert r[..k] == text[..k];
    assert r[|r| - 13..] == TruncationMarker;
  }

  /**
   * Below the allowance the marker alone can exceed the limit: 20 characters clamped to 5
   * come back as 13 characters.
   */
  lemma ClampTextSmallLimit(text: string)
    requires |text| == 20
    ensures ClampText(text, 5) == Clamped(TruncationMarker, true)
    ensures |ClampText(text, 5).text| > 5
  {
    assert text[..0] + TruncationMarker == TruncationMarker;
  }

  /** Clamping never returns empty text for non-empty input. */
  lemma ClampTextNonEmpty(text: string, maxChars: int)
    requires text != ""
    ensures ClampText(text, maxChars).text != ""
  {
    if |text| > maxChars {
      ClampTextLength(text, maxChars);
    }
  }

  datatype MediaInfo = MediaInfo(hasVideo: bool, hasAudio: bool, hasCaptions: bool)

  /** What the content script read off the page. */
  datatype PageReads = PageReads(
    url: string,
    documentTitle: string,
    parsedTitle: Option<string>,
    parsedText: Option<string>,
    bodyText: Option<string>,
    mediaDurationSeconds: Option<real>,
    media: MediaInfo)

  datatype ExtractResponse =
    | ExtractOk(url: string, title: Option<string>, text: string, truncated: bool,
                mediaDurationSeconds: Option<real>, media: MediaInfo)
    | ExtractError(error: string)

  const NoReadableText: string := "No readable text found."

  /** `a?.trim() || b`: the trimmed string when it is non-empty, otherwise the fallback. */
  function TrimmedOr(a: Option<string>, b: string): (r: string)
    ensures a.Some? && Trim(a.value) != "" ==> r == Trim(a.value)
    ensures a.None? || Trim(a.value) == "" ==> r == b
  {
    if a.Some? && Trim(a.value) != "" then Trim(a.value) else b
  }

  /** `parsed?.textContent?.trim() || document.body?.innerText?.trim() || ''`. */
  function RawText(page: PageReads): (raw: string)
    ensures raw == "" || IsTrimmed(raw)
  {
    TrimmedOr(page.parsedText, TrimmedOr(page.bodyText, ""))
  }

  /** `mediaDurationSeconds || media.hasVideo || media.hasAudio || media.hasCaptions`; a zero duration is falsy. */
  predicate HasMedia(page: PageReads) {
    || (page.mediaDurationSeconds.Some? && page.mediaDurationSeconds.value != 0.0)
    || page.media.hasVideo || page.media.hasAudio || page.media.hasCaptions
  }

  /** `document.title || null`. */
  function DocumentTitle(page: PageReads): Option<string> {
    if page.documentTitle != "" then Some(page.documentTitle) else None
  }

  /** The answer of `extract(maxChars)`. */
  function Extract(page: PageReads, maxChars: int): (r: ExtractResponse)
    ensures RawText(page) != "" ==> r.ExtractOk? && r.text == ClampText(RawText(page), maxChars).text
  {
    var raw := RawText(page);
    if raw == "" then
      if HasMedia(page) then
        ExtractOk(page.url, DocumentTitle(page), "", false, page.mediaDurationSeconds, page.media)
      else ExtractError(NoReadableText)
    else
      var clamped := ClampText(raw, maxChars);
      var title := if page.parsedTitle.Some? && Trim(page.parsedTitle.value) != "" then Some(Trim(page.parsedTitle.value))
                   else DocumentTitle(page);
      ExtractOk(page.url, title, clamped.text, clamped.truncated, page.mediaDurationSeconds, page.media)
  }

  /**
   * With no readable text the answer is a success with empty, untruncated text exactly when
   * the page has a media duration or a video, audio or caption element; otherwise it is the
   * error `No readable text found.`
   */
  lemma EmptyTextDecision(page: PageReads, maxChars: int)
    requires RawText(page) == ""
    ensures Extract(page, maxChars).ExtractOk? <==> HasMedia(page)
    ensures Extract(page, maxChars).ExtractOk? ==>
              Extract(page, maxChars).text == "" && !Extract(page, maxChars).truncated
    ensures Extract(page, maxChars).ExtractError? ==> Extract(page, maxChars).error == NoReadableText
  {
  }

  /**
   * A successful answer has empty text exactly when the page had no readable text; the text
   * is reported truncated exactly when there was some and it was longer than `maxChars`.
   */
  lemma ExtractTextIff(page: PageReads, maxChars: int)
    requires Extract(page, maxChars).ExtractOk?
    ensures Extract(page, maxChars).text == "" <==> RawText(page) == ""
    ensures Extract(page, maxChars).truncated <==> RawText(page) != "" && |RawText(page)| > maxChars
  {
    if RawText(page) != "" {
      ClampTextNonEmpty(RawText(page), maxChars);
      assert Extract(page, maxChars).truncated == ClampText(RawText(page), maxChars).truncated;
    }
  }

  /**
   * The title of an answer with text is the trimmed Readability title when that is non-empty
   * and `document.title` (or none, when that is empty) otherwise; an answer for a media page
   * without text always carries `document.title`. Every answer keeps the page's address and
   * its media facts.
   */
  lemma ExtractTitle(page: PageReads, maxChars: int)
    requires Extract(page, maxChars).ExtractOk?
    ensures var r := Extract(page, maxChars);
      && r.url == page.url && r.mediaDurationSeconds == page.mediaDurationSeconds && r.media == page.media
      && (RawText(page) == "" ==> r.title == DocumentTitle(page))
      && (RawText(page) != "" && page.parsedTitle.Some? && Trim(page.parsedTitle.value) != "" ==>
            r.title == Some(Trim(page.parsedTitle.value)))
      && (RawText(page) != "" && (page.parsedTitle.None? || Trim(page.parsedTitle.value) == "") ==>
            r.title == DocumentTitle(page))
      && (r.title.Some? ==> r.title.value != "")
  {
  }
}
