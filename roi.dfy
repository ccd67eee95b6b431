/**
 * The LLM region-of-interest refiner: sample times, reading the model's answer, the
 * per-coordinate median of several answers, attempt selection by API key, and the
 * conversion of the fractional box to a pixel crop.
 */
module RoiRefiner {
  import opened Wrappers
  import opened Text
  import opened Numeric
  import opened Seqs
  import opened SlideTypes
  import opened Diagnostics

  // ---------------------------------------------------------------------------------------
  // Reading one answer

  /**
   * One field of the parsed JSON answer after `Number(...)`: missing or `null` (which the
   * `??` fallbacks skip), a finite number, or anything that is not a finite number.
   */
  datatype RoiValue = Nullish | Finite(value: real) | NotFinite

  /** The fields of the answer object that `parseSlideRoi` looks at. */
  datatype RoiRecord = RoiRecord(
    x: RoiValue, left: RoiValue,
    y: RoiValue, top: RoiValue,
    width: RoiValue, w: RoiValue,
    height: RoiValue, h: RoiValue,
    right: RoiValue, bottom: RoiValue)

  /** `a ?? b`. */
  function Coalesce(a: RoiValue, b: RoiValue): RoiValue {
    if a.Nullish? then b else a
  }

  /** `normalizeRoiValue`: percentages in (1, 100] become fractions, other finite values pass. */
  function NormalizeRoiValue(v: RoiValue): (r: Option<real>)
    ensures r.Some? <==> v.Finite?
    ensures v.Finite? && !(1.0 < v.value <= 100.0) ==> r == Some(v.value)
    ensures v.Finite? && 1.0 < v.value <= 100.0 ==> r == Some(v.value / 100.0) && 0.01 < r.value <= 1.0
    ensures v.Finite? && v.value <= 100.0 ==> r.value <= 1.0 || r.value == v.value
  {
    match v
    case Nullish => None
    case NotFinite => None
    case Finite(n) => if n > 1.0 && n <= 100.0 then Some(n / 100.0) else Some(n)
  }

  /** A box `parseSlideRoi` can return: inside the unit square, at least a fifth wide and high. */
  predicate AcceptableRoi(r: Roi) {
    0.0 <= r.x <= 1.0 && 0.0 <= r.y <= 1.0 && 0.2 <= r.width <= 1.0 && 0.2 <= r.height <= 1.0
  }

  function FallbackX(rec: RoiRecord): Option<real> { NormalizeRoiValue(Coalesce(rec.x, rec.left)) }
  function FallbackY(rec: RoiRecord): Option<real> { NormalizeRoiValue(Coalesce(rec.y, rec.top)) }

  /** `width ?? (right != null && x != null ? right - x : null)`. */
  function FinalWidth(rec: RoiRecord): Option<real> {
    var width := NormalizeRoiValue(Coalesce(rec.width, rec.w));
    var right := NormalizeRoiValue(rec.right);
    var x := FallbackX(rec);
    if width.Some? then width else if right.Some? && x.Some? then Some(right.value - x.value) else None
  }

  function FinalHeight(rec: RoiRecord): Option<real> {
    var height := NormalizeRoiValue(Coalesce(rec.height, rec.h));
    var bottom := NormalizeRoiValue(rec.bottom);
    var y := FallbackY(rec);
    if height.Some? then height else if bottom.Some? && y.Some? then Some(bottom.value - y.value) else None
  }

  /** The record part of `parseSlideRoi`: fallbacks, the positivity test, clamping, the 0.2 floor. */
  function RoiFromRecord(rec: RoiRecord): (r: Option<Roi>)
    ensures r.Some? ==> AcceptableRoi(r.value)
    ensures FallbackX(rec).None? || FallbackY(rec).None? ==> r.None?
    ensures FinalWidth(rec).None? || FinalHeight(rec).None? ==> r.None?
    ensures FinalWidth(rec).Some? && FinalWidth(rec).value <= 0.0 ==> r.None?
    ensures FinalHeight(rec).Some? && FinalHeight(rec).value <= 0.0 ==> r.None?
    ensures r.Some? ==> r.value == Roi(Clamp(FallbackX(rec).value, 0.0, 1.0), Clamp(FallbackY(rec).value, 0.0, 1.0),
                                       Clamp(FinalWidth(rec).value, 0.0, 1.0), Clamp(FinalHeight(rec).value, 0.0, 1.0))
  {
    var x := FallbackX(rec);
    var y := FallbackY(rec);
    var finalWidth := FinalWidth(rec);
    var finalHeight := FinalHeight(rec);
    if x.None? || y.None? || finalWidth.None? || finalHeight.None? || finalWidth.value <= 0.0 || finalHeight.value <= 0.0 then
      None
    else
      var roi := Roi(Clamp(x.value, 0.0, 1.0), Clamp(y.value, 0.0, 1.0),
                     Clamp(finalWidth.value, 0.0, 1.0), Clamp(finalHeight.value, 0.0, 1.0));
      if roi.width < 0.2 || roi.height < 0.2 then None else Some(roi)
  }

  /**
   * `parseSlideRoi`. `parsed` is what `JSON.parse` makes of the first `{ ... }` span of the
   * trimmed text, `None` when there is no such span or it does not parse.
   */
  function ParseSlideRoi(text: string, parsed: Option<RoiRecord>): (r: Option<Roi>)
    ensures Trim(text) == [] || Trim(text) == "null" || parsed.None? ==> r.None?
    ensures r.Some? ==> AcceptableRoi(r.value)
    ensures Trim(text) != [] && Trim(text) != "null" && parsed.Some? ==> r == RoiFromRecord(parsed.value)
  {
    var trimmed := Trim(text);
    if trimmed == [] || trimmed == "null" then None
    else match parsed
      case None => None
      case Some(rec) => RoiFromRecord(rec)
  }

  function Fields(x: RoiValue, y: RoiValue, width: RoiValue, height: RoiValue): RoiRecord {
    RoiRecord(x, Nullish, y, Nullish, width, Nullish, height, Nullish, Nullish, Nullish)
  }

  /** An answer that is already an acceptable fractional box is returned as it is. */
  lemma AcceptsFractionalBox(x: real, y: real, width: real, height: real)
    requires AcceptableRoi(Roi(x, y, width, height))
    ensures RoiFromRecord(Fields(Finite(x), Finite(y), Finite(width), Finite(height))) == Some(Roi(x, y, width, height))
  {
  }

  /** Percentages are read as fractions: `{x: 10, y: 20, width: 50, height: 60}` is the box (0.1, 0.2, 0.5, 0.6). */
  lemma ReadsPercentages()
    ensures RoiFromRecord(Fields(Finite(10.0), Finite(20.0), Finite(50.0), Finite(60.0))) == Some(Roi(0.1, 0.2, 0.5, 0.6))
  {
  }

  /** A box 0.1 wide and high is too small. */
  lemma RejectsTinyBox()
    ensures RoiFromRecord(Fields(Finite(0.1), Finite(0.1), Finite(0.1), Finite(0.1))).None?
  {
  }

  /** Two records with the same coordinates after the fallbacks read the same. */
  lemma SameCoordinates(a: RoiRecord, b: RoiRecord)
    requires FallbackX(a) == FallbackX(b) && FallbackY(a) == FallbackY(b)
    requires FinalWidth(a) == FinalWidth(b) && FinalHeight(a) == FinalHeight(b)
    ensures RoiFromRecord(a) == RoiFromRecord(b)
  {
  }

  /** A present `x`, `y`, `width` or `height` hides its alias `left`, `top`, `w` or `h`. */
  lemma AliasesHidden(rec: RoiRecord, other: RoiValue)
    ensures !rec.x.Nullish? ==> RoiFromRecord(rec.(left := other)) == RoiFromRecord(rec)
    ensures !rec.y.Nullish? ==> RoiFromRecord(rec.(top := other)) == RoiFromRecord(rec)
    ensures !rec.width.Nullish? ==> RoiFromRecord(rec.(w := other)) == RoiFromRecord(rec)
    ensures !rec.height.Nullish? ==> RoiFromRecord(rec.(h := other)) == RoiFromRecord(rec)
  {
    if !rec.x.Nullish? { LeftHidden(rec, other); }
    if !rec.y.Nullish? { TopHidden(rec, other); }
    if !rec.width.Nullish? { WHidden(rec, other); }
    if !rec.height.Nullish? { HHidden(rec, other); }
  }

  lemma LeftHidden(rec: RoiRecord, other: RoiValue)
    requires !rec.x.Nullish?
    ensures RoiFromRecord(rec.(left := other)) == RoiFromRecord(rec)
  {
    SameCoordinates(rec.(left := other), rec);
  }

  lemma TopHidden(rec: RoiRecord, other: RoiValue)
    requires !rec.y.Nullish?
    ensures RoiFromRecord(rec.(top := other)) == RoiFromRecord(rec)
  {
    SameCoordinates(rec.(top := other), rec);
  }

  lemma WHidden(rec: RoiRecord, other: RoiValue)
    requires !rec.width.Nullish?
    ensures RoiFromRecord(rec.(w := other)) == RoiFromRecord(rec)
  {
    SameCoordinates(rec.(w := other), rec);
  }

  lemma HHidden(rec: RoiRecord, other: RoiValue)
    requires !rec.height.Nullish?
    ensures RoiFromRecord(rec.(h := other)) == RoiFromRecord(rec)
  {
    SameCoordinates(rec.(h := other), rec);
  }

  /** A missing `x`, `y`, `width` or `height` is read from its alias. */
  lemma AliasesFallBack(rec: RoiRecord)
    ensures rec.x.Nullish? ==> RoiFromRecord(rec) == RoiFromRecord(rec.(x := rec.left, left := Nullish))
    ensures rec.y.Nullish? ==> RoiFromRecord(rec) == RoiFromRecord(rec.(y := rec.top, top := Nullish))
    ensures rec.width.Nullish? ==> RoiFromRecord(rec) == RoiFromRecord(rec.(width := rec.w, w := Nullish))
    ensures rec.height.Nullish? ==> RoiFromRecord(rec) == RoiFromRecord(rec.(height := rec.h, h := Nullish))
  {
    if rec.x.Nullish? { XFromLeft(rec); }
    if rec.y.Nullish? { YFromTop(rec); }
    if rec.width.Nullish? { WidthFromW(rec); }
    if rec.height.Nullish? { HeightFromH(rec); }
  }

  lemma XFromLeft(rec: RoiRecord)
    requires rec.x.Nullish?
    ensures RoiFromRecord(rec) == RoiFromRecord(rec.(x := rec.left, left := Nullish))
  {
    SameCoordinates(rec, rec.(x := rec.left, left := Nullish));
  }

  lemma YFromTop(rec: RoiRecord)
    requires rec.y.Nullish?
    ensures RoiFromRecord(rec) == RoiFromRecord(rec.(y := rec.top, top := Nullish))
  {
    SameCoordinates(rec, rec.(y := rec.top, top := Nullish));
  }

  lemma WidthFromW(rec: RoiRecord)
    requires rec.width.Nullish?
    ensures RoiFromRecord(rec) == RoiFromRecord(rec.(width := rec.w, w := Nullish))
  {
    SameCoordinates(rec, rec.(width := rec.w, w := Nullish));
  }

  lemma HeightFromH(rec: RoiRecord)
    requires rec.height.Nullish?
    ensures RoiFromRecord(rec) == RoiFromRecord(rec.(height := rec.h, h := Nullish))
  {
    SameCoordinates(rec, rec.(height := rec.h, h := Nullish));
  }

  /** Without a width, `right - x` stands in for it (and likewise `bottom - y` for the height). */
  lemma RightEdgeGivesWidth(rec: RoiRecord, x: real, right: real)
    requires Coalesce(rec.width, rec.w).Nullish? && FallbackX(rec) == Some(x) && NormalizeRoiValue(rec.right) == Some(right)
    requires right - x <= 1.0
    ensures RoiFromRecord(rec) == RoiFromRecord(rec.(width := Finite(right - x)))
  {
  }

  // ---------------------------------------------------------------------------------------
  // Merging answers

  /** `pickMedian`: the element at `floor(n / 2)` of the ascending values, 0.5 for none. */
  function PickMedian(values: seq<real>): (m: real)
    ensures values == [] ==> m == 0.5
    ensures |values| > 0 ==> m in values
  {
    var list := SortBy(values, Identity);
    if |list| > 0 then
      MedianIsInput(values);
      list[|list| / 2]
    else 0.5
  }

  lemma MedianIsInput(values: seq<real>)
    requires |values| > 0
    ensures SortBy(values, Identity)[|values| / 2] in values
  {
    var list := SortBy(values, Identity);
    assert multiset(list) == multiset(values);
    var m := list[|list| / 2];
    assert m in multiset(list);
  }

  /** The median is the upper middle of the sorted values: nothing before it is larger, nothing after smaller. */
  lemma MedianRank(values: seq<real>)
    requires |values| > 0
    ensures forall k :: 0 <= k < |values| / 2 ==> SortBy(values, Identity)[k] <= PickMedian(values)
    ensures forall k :: |values| / 2 <= k < |values| ==> PickMedian(values) <= SortBy(values, Identity)[k]
  {
    var list := SortBy(values, Identity);
    assert PickMedian(values) == list[|values| / 2];
    SortedAround(list, |values| / 2);
  }

  /** In an ascending list, nothing before position `m` is larger and nothing from it on is smaller. */
  lemma SortedAround(list: seq<real>, m: nat)
    requires m < |list| && SortedBy(list, Identity)
    ensures forall k :: 0 <= k < m ==> list[k] <= list[m]
    ensures forall k :: m <= k < |list| ==> list[m] <= list[k]
  {
    forall k | 0 <= k < m ensures list[k] <= list[m] {
      assert Identity(list[k]) <= Identity(list[m]);
    }
    forall k | m < k < |list| ensures list[m] <= list[k] {
      assert Identity(list[m]) <= Identity(list[k]);
    }
  }

  lemma MedianOfOne(v: real)
    ensures PickMedian([v]) == v
  {
  }

  function Xs(rois: seq<Roi>): seq<real> { seq(|rois|, i requires 0 <= i < |rois| => rois[i].x) }
  function Ys(rois: seq<Roi>): seq<real> { seq(|rois|, i requires 0 <= i < |rois| => rois[i].y) }
  function Widths(rois: seq<Roi>): seq<real> { seq(|rois|, i requires 0 <= i < |rois| => rois[i].width) }
  function Heights(rois: seq<Roi>): seq<real> { seq(|rois|, i requires 0 <= i < |rois| => rois[i].height) }

  /** `mergeRois`: nothing for no boxes, otherwise the per-coordinate upper median. */
  function MergeRois(rois: seq<Roi>): (r: Option<Roi>)
    ensures r.None? <==> rois == []
    ensures r.Some? ==> (r.value.x in Xs(rois) && r.value.y in Ys(rois)
                         && r.value.width in Widths(rois) && r.value.height in Heights(rois))
  {
    if rois == [] then None
    else Some(Roi(PickMedian(Xs(rois)), PickMedian(Ys(rois)), PickMedian(Widths(rois)), PickMedian(Heights(rois))))
  }

  /** A single box is its own merge. */
  lemma MergeOfOne(roi: Roi)
    ensures MergeRois([roi]) == Some(roi)
  {
    var rois := [roi];
    assert Xs(rois) == [roi.x] && Ys(rois) == [roi.y];
    assert Widths(rois) == [roi.width] && Heights(rois) == [roi.height];
    MedianOfOne(roi.x);
    MedianOfOne(roi.y);
    MedianOfOne(roi.width);
    MedianOfOne(roi.height);
  }

  /** The median of acceptable boxes is acceptable: each coordinate is one of the inputs'. */
  lemma MergeKeepsAcceptable(rois: seq<Roi>)
    requires forall i :: 0 <= i < |rois| ==> AcceptableRoi(rois[i])
    ensures MergeRois(rois).Some? ==> AcceptableRoi(MergeRois(rois).value)
  {
    var r := MergeRois(rois);
    if r.Some? {
      var m := r.value;
      var i :| 0 <= i < |rois| && Xs(rois)[i] == m.x;
      var j :| 0 <= j < |rois| && Ys(rois)[j] == m.y;
      var k :| 0 <= k < |rois| && Widths(rois)[k] == m.width;
      var l :| 0 <= l < |rois| && Heights(rois)[l] == m.height;
      assert AcceptableRoi(rois[i]) && AcceptableRoi(rois[j]) && AcceptableRoi(rois[k]) && AcceptableRoi(rois[l]);
    }
  }

  // ---------------------------------------------------------------------------------------
  // Pixel crop

  /** `Math.round(fraction * size)`. */
  function Pixels(fraction: real, size: nat): int {
    Round(fraction * size as real)
  }

  /** The clamping half of `resolveCropFromRoi`, on pixel values of at least 16. */
  function ClampCrop(x: int, y: int, width: int, height: int, fw: nat, fh: nat): (c: CropRect)
    requires fw > 0 && fh > 0 && width >= 16 && height >= 16
    ensures 0 <= c.x && 1 <= c.width && c.x + c.width <= fw
    ensures 0 <= c.y && 1 <= c.height && c.y + c.height <= fh
    ensures 0 <= x && x + width <= fw ==> c.x == x && c.width == width
    ensures 0 <= y && y + height <= fh ==> c.y == y && c.height == height
  {
    var safeX := ClampInt(x, 0, fw - 1);
    var safeY := ClampInt(y, 0, fh - 1);
    CropRect(safeX, safeY, ClampInt(width, 16, fw - safeX), ClampInt(height, 16, fh - safeY))
  }

  /** `resolveCropFromRoi`: round to pixels, refuse boxes under 16 pixels, clamp into the frame. */
  function ResolveCropFromRoi(roi: Roi, frameWidth: Option<nat>, frameHeight: Option<nat>): (r: Option<CropRect>)
    ensures r.Some? <==> frameWidth.Some? && frameWidth.value > 0 && frameHeight.Some? && frameHeight.value > 0
                         && Pixels(roi.width, frameWidth.value) >= 16 && Pixels(roi.height, frameHeight.value) >= 16
    ensures r.Some? ==> 0 <= r.value.x && 1 <= r.value.width && r.value.x + r.value.width <= frameWidth.value
    ensures r.Some? ==> 0 <= r.value.y && 1 <= r.value.height && r.value.y + r.value.height <= frameHeight.value
  {
    if frameWidth.None? || frameWidth.value == 0 || frameHeight.None? || frameHeight.value == 0 then None
    else
      var fw := frameWidth.value;
      var fh := frameHeight.value;
      var x := Pixels(roi.x, fw);
      var y := Pixels(roi.y, fh);
      var width := Pixels(roi.width, fw);
      var height := Pixels(roi.height, fh);
      if width < 16 || height < 16 then None
      else Some(ClampCrop(x, y, width, height, fw, fh))
  }

  /** A box whose rounded pixels already lie in the frame is used exactly as rounded. */
  lemma CropOfFittingBox(roi: Roi, fw: nat, fh: nat)
    requires fw > 0 && fh > 0
    requires 0 <= Pixels(roi.x, fw) && 16 <= Pixels(roi.width, fw) && Pixels(roi.x, fw) + Pixels(roi.width, fw) <= fw
    requires 0 <= Pixels(roi.y, fh) && 16 <= Pixels(roi.height, fh) && Pixels(roi.y, fh) + Pixels(roi.height, fh) <= fh
    ensures ResolveCropFromRoi(roi, Some(fw), Some(fh)) ==
              Some(CropRect(Pixels(roi.x, fw), Pixels(roi.y, fh), Pixels(roi.width, fw), Pixels(roi.height, fh)))
  {
  }

  /**
   * Clamping near the right edge can leave a crop narrower than 16 pixels: a box starting at
   * 95% of a 100-pixel frame is cut to 5 pixels.
   */
  lemma CropNearEdgeIsNarrow()
    ensures ResolveCropFromRoi(Roi(0.95, 0.0, 0.5, 0.5), Some(100), Some(100)) == Some(CropRect(95, 0, 5, 50))
  {
    assert Pixels(0.95, 100) == 95;
    assert Pixels(0.5, 100) == 50;
    assert Pixels(0.0, 100) == 0;
  }

  // ---------------------------------------------------------------------------------------
  // Sample times

  /** `buildRoiSampleTimestamps`: 12%, 50% and 85% of the clip, kept 0.1 s before its end. */
  function BuildRoiSampleTimestamps(durationSeconds: Option<real>): (r: seq<real>)
    ensures durationSeconds.None? || durationSeconds.value <= 0.0 ==> r == [0.0]
    ensures durationSeconds.Some? && durationSeconds.value > 0.0 ==> |r| == 3
    ensures forall i, j :: 0 <= i < j < |r| ==> r[i] <= r[j]
    ensures durationSeconds.Some? && durationSeconds.value >= 0.1 ==>
              forall i :: 0 <= i < |r| ==> 0.0 <= r[i] <= durationSeconds.value - 0.1
  {
    if durationSeconds.None? || durationSeconds.value <= 0.0 then [0.0]
    else
      var d := durationSeconds.value;
      [Clamp(d * 0.12, 0.0, d - 0.1), Clamp(d * 0.5, 0.0, d - 0.1), Clamp(d * 0.85, 0.0, d - 0.1)]
  }

  /** On a clip shorter than 0.1 s every sample time is `d - 0.1`, before the clip starts. */
  lemma ShortClipSamplesBeforeStart(d: real)
    requires 0.0 < d < 0.1
    ensures BuildRoiSampleTimestamps(Some(d)) == [d - 0.1, d - 0.1, d - 0.1]
    ensures d - 0.1 < 0.0
  {
  }

  // ---------------------------------------------------------------------------------------
  // Attempt selection

  /** The keys handed to one attempt (`apiKeysForAttempt`). */
  datatype AttemptKeys = AttemptKeys(
    xaiApiKey: Option<string>,
    openaiApiKey: Option<string>,
    googleApiKey: Option<string>,
    anthropicApiKey: Option<string>,
    openrouterApiKey: Option<string>)

  /** `Boolean(key)`: present and not the empty string. */
  predicate Truthy(key: Option<string>) {
    key.Some? && key.value != ""
  }

  function Gated(flag: bool, key: Option<string>): Option<string> {
    if flag then key else None
  }

  function KeysForAttempt(attempt: LlmAttempt, llm: LlmConfig): AttemptKeys {
    AttemptKeys(
      llm.apiKeys.xaiApiKey,
      if attempt.openaiApiKeyOverride.Some? then attempt.openaiApiKeyOverride else llm.apiKeys.openaiApiKey,
      Gated(llm.keyFlags.googleConfigured, llm.apiKeys.googleApiKey),
      Gated(llm.keyFlags.anthropicConfigured, llm.apiKeys.anthropicApiKey),
      Gated(llm.keyFlags.openrouterConfigured, llm.apiKeys.openrouterApiKey))
  }

  /** `hasApiKeyForAttempt`. */
  function HasApiKeyForAttempt(attempt: LlmAttempt, llm: LlmConfig, keys: AttemptKeys): bool {
    match attempt.requiredEnv
    case GeminiApiKey => llm.keyFlags.googleConfigured
    case AnthropicApiKey => llm.keyFlags.anthropicConfigured
    case OpenrouterApiKey => llm.keyFlags.openrouterConfigured
    case XaiApiKey => Truthy(keys.xaiApiKey)
    case ZaiApiKey => Truthy(llm.apiKeys.zaiApiKey)
    case OpenaiApiKey => Truthy(keys.openaiApiKey)
  }

  predicate Usable(attempt: LlmAttempt, llm: LlmConfig) {
    HasApiKeyForAttempt(attempt, llm, KeysForAttempt(attempt, llm))
  }

  /**
   * Which attempts are tried: Google, Anthropic and OpenRouter attempts by their configured
   * flag alone, xAI and Z.AI by a non-empty key, OpenAI by the attempt's own key override
   * when it has one (even an empty one) and by the shared key otherwise.
   */
  lemma UsableIff(attempt: LlmAttempt, llm: LlmConfig)
    ensures attempt.requiredEnv in {GeminiApiKey, AnthropicApiKey, OpenrouterApiKey} ==>
              (Usable(attempt, llm) <==>
                 (attempt.requiredEnv == GeminiApiKey && llm.keyFlags.googleConfigured)
                 || (attempt.requiredEnv == AnthropicApiKey && llm.keyFlags.anthropicConfigured)
                 || (attempt.requiredEnv == OpenrouterApiKey && llm.keyFlags.openrouterConfigured))
    ensures attempt.requiredEnv == XaiApiKey ==> (Usable(attempt, llm) <==> Truthy(llm.apiKeys.xaiApiKey))
    ensures attempt.requiredEnv == ZaiApiKey ==> (Usable(attempt, llm) <==> Truthy(llm.apiKeys.zaiApiKey))
    ensures attempt.requiredEnv == OpenaiApiKey && attempt.openaiApiKeyOverride.Some? ==>
              (Usable(attempt, llm) <==> attempt.openaiApiKeyOverride.value != "")
    ensures attempt.requiredEnv == OpenaiApiKey && attempt.openaiApiKeyOverride.None? ==>
              (Usable(attempt, llm) <==> Truthy(llm.apiKeys.openaiApiKey))
  {
  }

  // ---------------------------------------------------------------------------------------
  // Inference over the sampled frames

  /** What the model call for one (attempt, frame) ends in: a thrown error or a reply. */
  datatype FrameAnswer = Threw(message: string) | Replied(text: string, parsed: Option<RoiRecord>)

  /** The LLM, as an oracle from an attempt and a frame number to its answer. */
  type RoiOracle = (LlmAttempt, nat) -> FrameAnswer

  /** `inferSlideRoiFromFrame`: a reply is parsed, an error yields no box. */
  function FrameRoi(answer: FrameAnswer): (r: Option<Roi>)
    ensures r.Some? ==> AcceptableRoi(r.value)
    ensures answer.Threw? ==> r.None?
  {
    match answer
    case Threw(_) => None
    case Replied(text, parsed) => ParseSlideRoi(text, parsed)
  }

  function FrameWarnings(attempt: LlmAttempt, verbose: bool, answer: FrameAnswer): seq<Warning> {
    if answer.Threw? && verbose then [RoiModelFailed(attempt.userModelId, answer.message)] else []
  }

  /** The boxes one attempt yields over frames `0 .. frames - 1`, in frame order. */
  function AttemptRois(oracle: RoiOracle, attempt: LlmAttempt, frames: nat): (r: seq<Roi>)
    ensures forall i :: 0 <= i < |r| ==> AcceptableRoi(r[i])
  {
    if frames == 0 then []
    else
      var last := FrameRoi(oracle(attempt, frames - 1));
      AttemptRois(oracle, attempt, frames - 1) + (if last.Some? then [last.value] else [])
  }

  function AttemptWarnings(oracle: RoiOracle, attempt: LlmAttempt, verbose: bool, frames: nat): seq<Warning> {
    if frames == 0 then []
    else AttemptWarnings(oracle, attempt, verbose, frames - 1) + FrameWarnings(attempt, verbose, oracle(attempt, frames - 1))
  }

  datatype Inference = Inference(roi: Option<Roi>, modelId: Option<string>, warnings: seq<Warning>)

  /** `r` with `added` in front of its warnings. */
  function Prefixed(added: seq<Warning>, r: Inference): Inference {
    r.(warnings := added + r.warnings)
  }

  lemma PrefixedTwice(a: seq<Warning>, b: seq<Warning>, r: Inference)
    ensures Prefixed(a, Prefixed(b, r)) == Prefixed(a + b, r)
  {
    assert a + (b + r.warnings) == (a + b) + r.warnings;
  }

  /** What `inferSlideRoiFromFrames` yields for the attempts in order. */
  function Infer(oracle: RoiOracle, attempts: seq<LlmAttempt>, llm: LlmConfig, frames: nat): Inference
  {
    if attempts == [] then Inference(None, None, [NoRoiModelSucceeded])
    else if !Usable(attempts[0], llm) then Infer(oracle, attempts[1..], llm, frames)
    else
      var warnings := AttemptWarnings(oracle, attempts[0], llm.verbose, frames);
      var merged := MergeRois(AttemptRois(oracle, attempts[0], frames));
      if merged.Some? then Inference(merged, Some(attempts[0].userModelId), warnings)
      else Prefixed(warnings, Infer(oracle, attempts[1..], llm, frames))
  }


  /**
   * The inference picks a box exactly when it names a model; the box is acceptable and comes
   * from a usable attempt; without one the last warning says so.
   */
  lemma {:induction false} InferOutcome(oracle: RoiOracle, attempts: seq<LlmAttempt>, llm: LlmConfig, frames: nat)
    ensures var r := Infer(oracle, attempts, llm, frames);
      && (r.roi.Some? <==> r.modelId.Some?)
      && (r.roi.Some? ==> AcceptableRoi(r.roi.value))
      && (r.roi.Some? ==> exists i :: 0 <= i < |attempts| && Usable(attempts[i], llm)
                                       && attempts[i].userModelId == r.modelId.value
                                       && AttemptRois(oracle, attempts[i], frames) != [])
      && (r.roi.None? ==> |r.warnings| > 0 && r.warnings[|r.warnings| - 1] == NoRoiModelSucceeded)
  {
    if attempts != [] {
      var attempt := attempts[0];
      InferOutcome(oracle, attempts[1..], llm, frames);
      var rest := Infer(oracle, attempts[1..], llm, frames);
      if rest.roi.Some? {
        var i :| 0 <= i < |attempts[1..]| && Usable(attempts[1..][i], llm)
                 && attempts[1..][i].userModelId == rest.modelId.value
                 && AttemptRois(oracle, attempts[1..][i], frames) != [];
        assert attempts[i + 1] == attempts[1..][i];
      }
      if Usable(attempt, llm) {
        MergeKeepsAcceptable(AttemptRois(oracle, attempt, frames));
      }
    }
  }

  /** The box picked with no usable attempt is none, whatever the model would say. */
  lemma NoUsableAttemptNoRoi(oracle: RoiOracle, attempts: seq<LlmAttempt>, llm: LlmConfig, frames: nat)
    requires forall i :: 0 <= i < |attempts| ==> !Usable(attempts[i], llm)
    ensures Infer(oracle, attempts, llm, frames) == Inference(None, None, [NoRoiModelSucceeded])
    decreases |attempts|
  {
    if attempts != [] {
      NoUsableAttemptNoRoi(oracle, attempts[1..], llm, frames);
    }
  }

  /** `inferSlideRoiFromFrame`: ask the model about one frame; a failure is a warning in verbose mode. */
  method InferSlideRoiFromFrame(oracle: RoiOracle, attempt: LlmAttempt, frame: nat, verbose: bool, warnings: seq<Warning>)
    returns (roi: Option<Roi>, warnings': seq<Warning>)
    ensures roi == FrameRoi(oracle(attempt, frame))
    ensures warnings' == warnings + FrameWarnings(attempt, verbose, oracle(attempt, frame))
  {
    warnings' := warnings;
    match oracle(attempt, frame) {
      case Threw(message) =>
        if verbose {
          warnings' := warnings' + [RoiModelFailed(attempt.userModelId, message)];
        }
        roi := None;
      case Replied(text, parsed) =>
        roi := ParseSlideRoi(text, parsed);
    }
  }

  /** One attempt over the frames: the `rois` list, `lastRoi`, and the warnings its failures add. */
  method RunAttempt(oracle: RoiOracle, attempt: LlmAttempt, verbose: bool, frames: nat, warnings: seq<Warning>)
    returns (rois: seq<Roi>, lastRoi: Option<Roi>, warnings': seq<Warning>)
    ensures rois == AttemptRois(oracle, attempt, frames)
    ensures warnings' == warnings + AttemptWarnings(oracle, attempt, verbose, frames)
    ensures lastRoi.Some? ==> rois != []
  {
    rois := [];
    lastRoi := None;
    warnings' := warnings;
    for i := 0 to frames
      invariant rois == AttemptRois(oracle, attempt, i)
      invariant warnings' == warnings + AttemptWarnings(oracle, attempt, verbose, i)
      invariant lastRoi.Some? ==> rois != []
    {
      var roi;
      roi, warnings' := InferSlideRoiFromFrame(oracle, attempt, i, verbose, warnings');
      ghost var frameWarnings := FrameWarnings(attempt, verbose, oracle(attempt, i));
      assert AttemptWarnings(oracle, attempt, verbose, i + 1) == AttemptWarnings(oracle, attempt, verbose, i) + frameWarnings;
      AppendAssoc(warnings, AttemptWarnings(oracle, attempt, verbose, i), frameWarnings);
      assert AttemptRois(oracle, attempt, i + 1) == AttemptRois(oracle, attempt, i) + (if roi.Some? then [roi.value] else []);
      if roi.Some? {
        rois := rois + [roi.value];
        lastRoi := roi;
      }
    }
  }

  /**
   * The body of the attempt loop for a usable attempt: the merged box, or none; the
   * `lastRoi` fallback is dead because only an empty `rois` fails to merge.
   */
  method TryAttempt(oracle: RoiOracle, attempt: LlmAttempt, verbose: bool, frames: nat, warnings: seq<Warning>)
    returns (roi: Option<Roi>, warnings': seq<Warning>)
    ensures roi == MergeRois(AttemptRois(oracle, attempt, frames))
    ensures warnings' == warnings + AttemptWarnings(oracle, attempt, verbose, frames)
  {
    var rois, lastRoi;
    rois, lastRoi, warnings' := RunAttempt(oracle, attempt, verbose, frames, warnings);
    var merged := MergeRois(rois);
    if merged.Some? {
      return merged, warnings';
    }
    if lastRoi.Some? {
      // The source returns `lastRoi` here.
      assert false;
    }
    return None, warnings';
  }


  /** One step of `Infer` at position `j`. */
  lemma InferAt(oracle: RoiOracle, attempts: seq<LlmAttempt>, j: nat, llm: LlmConfig, frames: nat)
    requires j < |attempts|
    ensures !Usable(attempts[j], llm) ==>
              Infer(oracle, attempts[j..], llm, frames) == Infer(oracle, attempts[j + 1..], llm, frames)
    ensures Usable(attempts[j], llm) && MergeRois(AttemptRois(oracle, attempts[j], frames)).Some? ==>
              Infer(oracle, attempts[j..], llm, frames) ==
                Inference(MergeRois(AttemptRois(oracle, attempts[j], frames)), Some(attempts[j].userModelId),
                          AttemptWarnings(oracle, attempts[j], llm.verbose, frames))
    ensures Usable(attempts[j], llm) && MergeRois(AttemptRois(oracle, attempts[j], frames)).None? ==>
              Infer(oracle, attempts[j..], llm, frames) ==
                Prefixed(AttemptWarnings(oracle, attempts[j], llm.verbose, frames), Infer(oracle, attempts[j + 1..], llm, frames))
  {
    assert attempts[j..][0] == attempts[j];
    assert attempts[j..][1..] == attempts[j + 1..];
  }

  /** Skipping an unusable attempt leaves what is still to come unchanged. */
  lemma InferSkipped(oracle: RoiOracle, attempts: seq<LlmAttempt>, j: nat, llm: LlmConfig, frames: nat,
                     added: seq<Warning>, spec: Inference)
    requires j < |attempts| && !Usable(attempts[j], llm)
    requires spec == Prefixed(added, Infer(oracle, attempts[j..], llm, frames))
    ensures spec == Prefixed(added, Infer(oracle, attempts[j + 1..], llm, frames))
  {
    InferAt(oracle, attempts, j, llm, frames);
  }

  /** A usable attempt whose boxes do not merge adds its warnings and hands over to the rest. */
  lemma InferFellThrough(oracle: RoiOracle, attempts: seq<LlmAttempt>, j: nat, llm: LlmConfig, frames: nat,
                         added: seq<Warning>, spec: Inference)
    requires j < |attempts| && Usable(attempts[j], llm)
    requires MergeRois(AttemptRois(oracle, attempts[j], frames)).None?
    requires spec == Prefixed(added, Infer(oracle, attempts[j..], llm, frames))
    ensures spec == Prefixed(added + AttemptWarnings(oracle, attempts[j], llm.verbose, frames),
                             Infer(oracle, attempts[j + 1..], llm, frames))
  {
    InferAt(oracle, attempts, j, llm, frames);
    PrefixedTwice(added, AttemptWarnings(oracle, attempts[j], llm.verbose, frames), Infer(oracle, attempts[j + 1..], llm, frames));
  }

  /** A usable attempt whose boxes merge ends the inference with that box. */
  lemma InferSucceeded(oracle: RoiOracle, attempts: seq<LlmAttempt>, j: nat, llm: LlmConfig, frames: nat,
                       added: seq<Warning>, spec: Inference)
    requires j < |attempts| && Usable(attempts[j], llm)
    requires MergeRois(AttemptRois(oracle, attempts[j], frames)).Some?
    requires spec == Prefixed(added, Infer(oracle, attempts[j..], llm, frames))
    ensures spec == Inference(MergeRois(AttemptRois(oracle, attempts[j], frames)), Some(attempts[j].userModelId),
                              added + AttemptWarnings(oracle, attempts[j], llm.verbose, frames))
  {
    InferAt(oracle, attempts, j, llm, frames);
  }

  /**
   * One turn of the attempt loop of `inferSlideRoiFromFrames` at position `j`: an attempt without
   * its key is skipped; a usable one is run and either ends the loop with its merged box or adds
   * its warnings and hands over to the next one.
   */
  method AttemptStep(oracle: RoiOracle, llm: LlmConfig, frames: nat, j: nat, warnings: seq<Warning>,
                     ghost added: seq<Warning>, ghost spec: Inference)
    returns (merged: Option<Roi>, warnings': seq<Warning>, ghost added': seq<Warning>, ghost extra: seq<Warning>)
    requires j < |llm.attempts|
    requires spec == Prefixed(added, Infer(oracle, llm.attempts[j..], llm, frames))
    ensures merged.Some? ==> spec == Inference(merged, Some(llm.attempts[j].userModelId), added')
    ensures merged.None? ==> spec == Prefixed(added', Infer(oracle, llm.attempts[j + 1..], llm, frames))
    ensures warnings' == warnings + extra && added' == added + extra
  {
    var attempt := llm.attempts[j];
    var keys := KeysForAttempt(attempt, llm);
    if HasApiKeyForAttempt(attempt, llm, keys) {
      extra := AttemptWarnings(oracle, attempt, llm.verbose, frames);
      merged, warnings' := TryAttempt(oracle, attempt, llm.verbose, frames, warnings);
      added' := added + extra;
      if merged.Some? {
        InferSucceeded(oracle, llm.attempts, j, llm, frames, added, spec);
      } else {
        InferFellThrough(oracle, llm.attempts, j, llm, frames, added, spec);
      }
    } else {
      InferSkipped(oracle, llm.attempts, j, llm, frames, added, spec);
      merged, warnings', added', extra := None, warnings, added, [];
      assert warnings' == warnings + [] && added' == added + [];
    }
  }

  /** `inferSlideRoiFromFrames`: the first usable attempt whose boxes merge wins. */
  method InferSlideRoiFromFrames(oracle: RoiOracle, llm: LlmConfig, frames: nat, warnings: seq<Warning>)
    returns (roi: Option<Roi>, modelId: Option<string>, warnings': seq<Warning>)
    ensures roi == Infer(oracle, llm.attempts, llm, frames).roi
    ensures modelId == Infer(oracle, llm.attempts, llm, frames).modelId
    ensures warnings' == warnings + Infer(oracle, llm.attempts, llm, frames).warnings
  {
    warnings' := warnings;
    ghost var added: seq<Warning> := [];
    ghost var spec := Infer(oracle, llm.attempts, llm, frames);
    assert llm.attempts[0..] == llm.attempts;
    var j := 0;
    while j < |llm.attempts|
      invariant 0 <= j <= |llm.attempts|
      invariant warnings' == warnings + added
      invariant spec == Prefixed(added, Infer(oracle, llm.attempts[j..], llm, frames))
    {
      var merged;
      ghost var extra, before := [], added;
      merged, warnings', added, extra := AttemptStep(oracle, llm, frames, j, warnings', added, spec);
      AppendAssoc(warnings, before, extra);
      if merged.Some? {
        return merged, Some(llm.attempts[j].userModelId), warnings';
      }
      j := j + 1;
    }
    assert llm.attempts[j..] == [];
    warnings' := warnings' + [NoRoiModelSucceeded];
    return None, None, warnings';
  }

  // ---------------------------------------------------------------------------------------
  // The whole refiner

  /**
   * Frame extraction, as an oracle from a frame number and a time to the error it fails
   * with, if any.
   */
  type FrameExtractor = (nat, real) -> Option<string>

  /** The first failing extraction among the sample times from `i` on. */
  function FirstExtractionError(extract: FrameExtractor, timestamps: seq<real>, i: nat): (r: Option<string>)
    requires i <= |timestamps|
    ensures r.None? <==> forall k :: i <= k < |timestamps| ==> extract(k, timestamps[k]).None?
    decreases |timestamps| - i
  {
    if i == |timestamps| then None
    else if extract(i, timestamps[i]).Some? then extract(i, timestamps[i])
    else FirstExtractionError(extract, timestamps, i + 1)
  }

  /** What `detectSlideRoiWithLlm` yields: a box, and the warnings it appends. */
  function DetectRoi(llm: Option<LlmConfig>, durationSeconds: Option<real>, extract: FrameExtractor, oracle: RoiOracle)
    : (Option<Roi>, seq<Warning>)
  {
    if llm.None? || |llm.value.attempts| == 0 then (None, [])
    else
      var timestamps := BuildRoiSampleTimestamps(durationSeconds);
      match FirstExtractionError(extract, timestamps, 0)
      case Some(e) => (None, [RoiDetectionFailed(e)])
      case None =>
        var r := Infer(oracle, llm.value.attempts, llm.value, |timestamps|);
        (r.roi, r.warnings + (if r.roi.Some? && r.modelId.Some? && r.modelId.value != "" then [RoiModelSelected(r.modelId.value)] else []))
  }

  /** `detectSlideRoiWithLlm`: extract the sample frames in order, then infer a box from them. */
  method DetectSlideRoiWithLlm(llm: Option<LlmConfig>, durationSeconds: Option<real>, extract: FrameExtractor,
                               oracle: RoiOracle, warnings: seq<Warning>)
    returns (roi: Option<Roi>, warnings': seq<Warning>)
    ensures roi == DetectRoi(llm, durationSeconds, extract, oracle).0
    ensures warnings' == warnings + DetectRoi(llm, durationSeconds, extract, oracle).1
  {
    warnings' := warnings;
    if llm.None? || |llm.value.attempts| == 0 {
      return None, warnings';
    }
    var timestamps := BuildRoiSampleTimestamps(durationSeconds);
    for i := 0 to |timestamps|
      invariant FirstExtractionError(extract, timestamps, 0) == FirstExtractionError(extract, timestamps, i)
    {
      var failure := extract(i, timestamps[i]);
      if failure.Some? {
        warnings' := warnings' + [RoiDetectionFailed(failure.value)];
        return None, warnings';
      }
    }
    var modelId;
    roi, modelId, warnings' := InferSlideRoiFromFrames(oracle, llm.value, |timestamps|, warnings');
    if roi.Some? && modelId.Some? && modelId.value != "" {
      warnings' := warnings' + [RoiModelSelected(modelId.value)];
    }
  }

  /**
   * The model is announced exactly when a box was found with a non-empty model id (an empty
   * id is falsy in the `roi && modelId` gate); the announcement comes after the loop's warnings.
   */
  lemma ModelAnnouncedIff(llm: Option<LlmConfig>, durationSeconds: Option<real>, extract: FrameExtractor, oracle: RoiOracle)
    requires llm.Some? && |llm.value.attempts| > 0
    requires FirstExtractionError(extract, BuildRoiSampleTimestamps(durationSeconds), 0).None?
    ensures var r := Infer(oracle, llm.value.attempts, llm.value, |BuildRoiSampleTimestamps(durationSeconds)|);
            var w := DetectRoi(llm, durationSeconds, extract, oracle).1;
      && DetectRoi(llm, durationSeconds, extract, oracle).0 == r.roi
      && (r.roi.Some? <==> r.modelId.Some?)
      && (if r.roi.Some? && r.modelId.Some? && r.modelId.value != "" then w == r.warnings + [RoiModelSelected(r.modelId.value)]
          else w == r.warnings)
  {
    var frames := |BuildRoiSampleTimestamps(durationSeconds)|;
    var r := Infer(oracle, llm.value.attempts, llm.value, frames);
    InferOutcome(oracle, llm.value.attempts, llm.value, frames);
    assert DetectRoi(llm, durationSeconds, extract, oracle)
        == (r.roi, r.warnings + (if r.roi.Some? && r.modelId.Some? && r.modelId.value != "" then [RoiModelSelected(r.modelId.value)] else []));
  }

  /** The refiner only ever yields a box that the answer parser would accept. */
  lemma DetectRoiAcceptable(llm: Option<LlmConfig>, durationSeconds: Option<real>, extract: FrameExtractor, oracle: RoiOracle)
    ensures DetectRoi(llm, durationSeconds, extract, oracle).0.Some? ==>
              AcceptableRoi(DetectRoi(llm, durationSeconds, extract, oracle).0.value)
  {
    if llm.Some? && |llm.value.attempts| > 0 {
      InferOutcome(oracle, llm.value.attempts, llm.value, |BuildRoiSampleTimestamps(durationSeconds)|);
    }
  }
}
