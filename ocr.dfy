/**
 * The OCR stage: `cleanOcrText` keeps the plausible text lines of tesseract's output,
 * `estimateOcrConfidence` scores the kept text by its share of letters and digits, and
 * `runOcrOnSlides` annotates every slide, turning a failed OCR run into empty text.
 */
module SlideOcr {
  import opened Wrappers
  import opened Seqs
  import opened Text
  import opened SlideTypes
  import opened Executor

  // ---------------------------------------------------------------------------------------
  // cleanOcrText

  /** `line.length >= 2`. */
  predicate LongEnough(line: string) {
    |line| >= 2
  }

  /** `!(line.length > 20 && !line.includes(' '))`: no long run without a space. */
  predicate NotRunOn(line: string) {
    !(|line| > 20 && ' ' !in line)
  }

  /** `/[a-z0-9]/i.test(line)`. */
  predicate HasAlnum(line: string) {
    exists i :: 0 <= i < |line| && IsAsciiAlnum(line[i])
  }

  /** The lines `cleanOcrText` keeps: trimmed, then the three filters in the source's order. */
  function OcrLines(text: string): seq<string> {
    Filter(Filter(Filter(TrimAll(SplitLines(text)), LongEnough), NotRunOn), HasAlnum)
  }

  /** `cleanOcrText`: the kept lines joined by newlines. */
  function CleanOcrText(text: string): string {
    Join(OcrLines(text), '\n')
  }

  /** No piece of `split(/\r?\n/)` contains a newline. */
  lemma SplitLinesNoNewline(s: string)
    ensures forall i :: 0 <= i < |SplitLines(s)| ==> '\n' !in SplitLines(s)[i]
  {
    var ps := Split(s, '\n');
    var lines := SplitLines(s);
    forall i | 0 <= i < |lines| ensures '\n' !in lines[i] {
      if i < |lines| - 1 {
        assert lines[i] == DropTrailingCr(ps[i]);
        assert '\n' !in ps[i];
        forall k | 0 <= k < |lines[i]| ensures lines[i][k] != '\n' {
          assert lines[i][k] == ps[i][k];
        }
      }
    }
  }

  /**
   * Every kept line is trimmed, at least two characters long, holds a space when it is longer
   * than twenty characters, holds an ASCII letter or digit and holds no newline; the kept
   * lines keep the order of the trimmed input lines.
   */
  lemma OcrLinesProperties(text: string)
    ensures forall i :: 0 <= i < |OcrLines(text)| ==>
              var line := OcrLines(text)[i];
              && IsTrimmed(line) && |line| >= 2 && (|line| > 20 ==> ' ' in line) && HasAlnum(line)
              && '\n' !in line
    ensures IsSubsequence(OcrLines(text), TrimAll(SplitLines(text)))
  {
    var lines := OcrLines(text);
    forall i | 0 <= i < |lines|
      ensures IsTrimmed(lines[i]) && LongEnough(lines[i]) && NotRunOn(lines[i]) && HasAlnum(lines[i]) && '\n' !in lines[i]
    {
      KeptLine(text, i);
    }
    OcrLinesInOrder(text);
  }

  /** One kept line passes every filter and comes from a trimmed input line. */
  lemma KeptLine(text: string, i: nat)
    requires i < |OcrLines(text)|
    ensures var line := OcrLines(text)[i];
      IsTrimmed(line) && LongEnough(line) && NotRunOn(line) && HasAlnum(line) && '\n' !in line
  {
    var trimmed := TrimAll(SplitLines(text));
    var a := Filter(trimmed, LongEnough);
    var b := Filter(a, NotRunOn);
    var c := Filter(b, HasAlnum);
    assert c == OcrLines(text);
    var line := c[i];
    assert HasAlnum(line) && line in b;
    var j :| 0 <= j < |b| && b[j] == line;
    assert NotRunOn(line) && line in a;
    var k :| 0 <= k < |a| && a[k] == line;
    assert LongEnough(line) && line in trimmed;
    var m :| 0 <= m < |trimmed| && trimmed[m] == line;
    assert line == Trim(SplitLines(text)[m]);
    SplitLinesNoNewline(text);
    TrimKeepsOut(SplitLines(text)[m], '\n');
  }

  /** The kept lines keep the order of the trimmed input lines. */
  lemma OcrLinesInOrder(text: string)
    ensures IsSubsequence(OcrLines(text), TrimAll(SplitLines(text)))
  {
    var trimmed := TrimAll(SplitLines(text));
    var a := Filter(trimmed, LongEnough);
    var b := Filter(a, NotRunOn);
    var c := Filter(b, HasAlnum);
    FilterIsSubsequence(trimmed, LongEnough);
    FilterIsSubsequence(a, NotRunOn);
    FilterIsSubsequence(b, HasAlnum);
    SubsequenceTrans(b, a, trimmed);
    SubsequenceTrans(c, b, trimmed);
  }

  /**
   * The cleaned text is empty exactly when no line is kept; otherwise splitting it at newlines
   * gives back exactly the kept lines.
   */
  lemma CleanOcrTextLines(text: string)
    ensures CleanOcrText(text) == "" <==> OcrLines(text) == []
    ensures OcrLines(text) != [] ==> Split(CleanOcrText(text), '\n') == OcrLines(text)
  {
    var lines := OcrLines(text);
    OcrLinesProperties(text);
    if lines != [] {
      SplitJoin(lines, '\n');
      JoinNonEmpty(lines, '\n');
    }
  }

  // ---------------------------------------------------------------------------------------
  // estimateOcrConfidence

  function CountAlnum(s: string): (n: nat)
    ensures n <= |s|
    ensures n == 0 <==> !HasAlnum(s)
    ensures n == |s| <==> forall i :: 0 <= i < |s| ==> IsAsciiAlnum(s[i])
  {
    if s == [] then 0
    else
      var rest := CountAlnum(s[1..]);
      assert HasAlnum(s) <==> IsAsciiAlnum(s[0]) || HasAlnum(s[1..]) by {
        if HasAlnum(s[1..]) {
          var k :| 0 <= k < |s[1..]| && IsAsciiAlnum(s[1..][k]);
          assert IsAsciiAlnum(s[k + 1]);
        }
        if HasAlnum(s) && !IsAsciiAlnum(s[0]) {
          var k :| 0 <= k < |s| && IsAsciiAlnum(s[k]);
          assert IsAsciiAlnum(s[1..][k - 1]);
        }
      }
      assert (forall i :: 0 <= i < |s| ==> IsAsciiAlnum(s[i]))
         <==> IsAsciiAlnum(s[0]) && forall i :: 0 <= i < |s[1..]| ==> IsAsciiAlnum(s[1..][i]) by {
        if forall i :: 0 <= i < |s[1..]| ==> IsAsciiAlnum(s[1..][i]) {
          forall i | 1 <= i < |s| ensures IsAsciiAlnum(s[i]) {
            assert s[i] == s[1..][i - 1];
          }
        }
      }
      (if IsAsciiAlnum(s[0]) then 1 else 0) + rest
  }

  /**
   * `estimateOcrConfidence`: zero for empty text, otherwise the share of ASCII letters and
   * digits, capped at one.
   */
  function EstimateOcrConfidence(text: string): real {
    if text == "" then 0.0
    else
      var ratio := CountAlnum(text) as real / |text| as real;
      if ratio < 1.0 then ratio else 1.0
  }

  /**
   * The confidence lies in [0, 1]; it is 0 exactly for text without letters or digits (the
   * empty text included) and 1 exactly for non-empty text made only of them.
   */
  lemma ConfidenceBounds(text: string)
    ensures 0.0 <= EstimateOcrConfidence(text) <= 1.0
    ensures EstimateOcrConfidence(text) == 0.0 <==> !HasAlnum(text)
    ensures EstimateOcrConfidence(text) == 1.0 <==> text != "" && forall i :: 0 <= i < |text| ==> IsAsciiAlnum(text[i])
  {
    if text != "" {
      RatioBounds(CountAlnum(text) as real, |text| as real);
    }
  }

  /** A share `a / d` of a positive whole `d` lies in [0, 1], is 0 only for `a == 0` and 1 only for `a == d`. */
  lemma RatioBounds(a: real, d: real)
    requires 0.0 <= a <= d && d > 0.0
    ensures 0.0 <= a / d <= 1.0
    ensures a / d == 0.0 <==> a == 0.0
    ensures a / d == 1.0 <==> a == d
  {
    var q := a / d;
    assert q * d == a;
  }

  lemma ConfidenceExamples()
    ensures EstimateOcrConfidence("") == 0.0
    ensures EstimateOcrConfidence("ABC123") == 1.0
    ensures EstimateOcrConfidence("a b") == 2.0 / 3.0
  {
    ConfidenceBounds("ABC123");
    assert CountAlnum("a b") == 2 by {
      assert "a b"[1..] == " b" && " b"[1..] == "b" && "b"[1..] == "";
    }
  }

  // ---------------------------------------------------------------------------------------
  // runOcrOnSlides

  /** Tesseract, as an oracle from an image path to its standard output or an error. */
  type OcrEngine = string -> Result<string, string>

  /** The slide with its OCR fields set; a failed OCR run gives empty text and confidence 0. */
  function OcrSlide(ocr: OcrEngine, slide: SlideImage): (r: SlideImage)
    ensures r.(ocrText := slide.ocrText, ocrConfidence := slide.ocrConfidence) == slide
  {
    match ocr(slide.imagePath)
    case Success(text) =>
      var cleaned := CleanOcrText(text);
      slide.(ocrText := Some(cleaned), ocrConfidence := Some(EstimateOcrConfidence(cleaned)))
    case Failure(_) => slide.(ocrText := Some(""), ocrConfidence := Some(0.0))
  }

  function OcrTasks(ocr: OcrEngine, slides: seq<SlideImage>): seq<() -> Result<SlideImage, string>> {
    seq(|slides|, i requires 0 <= i < |slides| => () => Success(OcrSlide(ocr, slides[i])))
  }

  function IndexOf(s: SlideImage): real {
    s.index as real
  }

  /** What `runOcrOnSlides` returns: every slide annotated, sorted by index. */
  function OcrResults(ocr: OcrEngine, slides: seq<SlideImage>): seq<SlideImage> {
    SortBy(seq(|slides|, i requires 0 <= i < |slides| => OcrSlide(ocr, slides[i])), IndexOf)
  }

  /**
   * `runOcrOnSlides`: one task per slide through the executor; no task throws, because a failed
   * OCR run is caught inside the task, so the run always yields every slide.
   */
  method RunOcrOnSlides(ocr: OcrEngine, slides: seq<SlideImage>, workers: int) returns (r: seq<SlideImage>)
    ensures r == OcrResults(ocr, slides)
  {
    var tasks := OcrTasks(ocr, slides);
    var annotated := seq(|slides|, i requires 0 <= i < |slides| => OcrSlide(ocr, slides[i]));
    var outcome, _, _ := RunWithConcurrency(tasks, workers);
    CollectAllSuccess(Outcomes(tasks), annotated);
    r := SortBy(outcome.value, IndexOf);
  }

  /**
   * On slides indexed `1..N` the OCR stage keeps their order and changes only the OCR fields;
   * a slide whose OCR run fails gets empty text and confidence 0, whatever happens to the others.
   */
  lemma OcrResultsInOrder(ocr: OcrEngine, slides: seq<SlideImage>)
    requires forall i :: 0 <= i < |slides| ==> slides[i].index == i + 1
    ensures |OcrResults(ocr, slides)| == |slides|
    ensures forall i :: 0 <= i < |slides| ==> OcrResults(ocr, slides)[i] == OcrSlide(ocr, slides[i])
    ensures forall i :: 0 <= i < |slides| && ocr(slides[i].imagePath).Failure? ==>
              OcrResults(ocr, slides)[i] == slides[i].(ocrText := Some(""), ocrConfidence := Some(0.0))
  {
    var annotated := seq(|slides|, i requires 0 <= i < |slides| => OcrSlide(ocr, slides[i]));
    assert forall i :: 0 <= i < |annotated| ==> annotated[i].index == i + 1;
    assert SortedBy(annotated, IndexOf);
    SortBySorted(annotated, IndexOf);
  }

  /** Whatever OCR returns, both fields are set, a success stores the cleaned text, and the score is in [0, 1]. */
  lemma OcrFieldsWellFormed(ocr: OcrEngine, slide: SlideImage)
    ensures var r := OcrSlide(ocr, slide);
      && r.ocrText.Some? && r.ocrConfidence.Some?
      && 0.0 <= r.ocrConfidence.value <= 1.0
      && (ocr(slide.imagePath).Success? ==> r.ocrText.value == CleanOcrText(ocr(slide.imagePath).value))
  {
    match ocr(slide.imagePath)
    case Success(text) => ConfidenceBounds(CleanOcrText(text));
    case Failure(_) =>
  }
}
