/**
 * `extractSlidesWithFfmpeg`: probe the video, choose the scene threshold (the adaptive retry,
 * then, when auto-tuning finds nothing, a second try inside an LLM-proposed region of
 * interest), record the auto-tune decision, and turn the chosen timestamps into slides:
 * merge, cap at `maxSlides`, grab the frames, drop slides that follow too closely.
 */
module SlidePipeline {
  import opened Wrappers
  import opened Numeric
  import opened Seqs
  import opened SlideTypes
  import opened Diagnostics
  import opened Probe
  import opened SceneDetection
  import opened RoiRefiner
  import opened SlideFilters
  import opened FrameExtraction

  /** The extraction settings `extractSlidesWithFfmpeg` reads. */
  datatype Settings = Settings(
    sceneThreshold: real,
    autoTuneThreshold: bool,
    maxSlides: int,
    minDurationSeconds: real,
    workers: int)

  /**
   * The external tools, as oracles: the scene detector, the sample-frame grab and the LLM of
   * the region-of-interest refiner, and the frame grab of the final slides.
   */
  datatype Tools = Tools(detector: Detector, sampleFrames: FrameExtractor, roiOracle: RoiOracle, writeFrame: FrameWriter)

  /** The lowest threshold the adaptive retry may use. */
  const MinThreshold: real := 0.05

  /** The confidence margin the region-of-interest run must gain to be adopted. */
  const RoiMargin: real := 0.05

  /** `Math.min(maxSlides, 5)`. */
  function TargetMinSlides(maxSlides: int): int {
    MinInt(maxSlides, 5)
  }

  /** The threshold, timestamps and auto-tune record the tuning settles on. */
  datatype Tuned = Tuned(threshold: real, timestamps: seq<real>, autoTune: AutoTune)

  /** The record written right after the base run. */
  function InitialAutoTune(autoTuneThreshold: bool, baseThreshold: real, base: SceneEvaluation): (a: AutoTune)
    ensures a.chosenThreshold == base.threshold && a.confidence == base.confidence && a.roi.None?
    ensures a.enabled <==> autoTuneThreshold && base.threshold != baseThreshold
    ensures a.strategy == (if a.enabled then AdaptiveStrategy else NoStrategy)
  {
    if autoTuneThreshold && base.threshold != baseThreshold then
      AutoTune(true, base.threshold, base.confidence, AdaptiveStrategy, None)
    else
      AutoTune(false, base.threshold, base.confidence, NoStrategy, None)
  }

  /** The warning the adaptive controller appends after a run. */
  function EvaluationWarnings(e: SceneEvaluation): seq<Warning> {
    if |e.timestamps| == 0 then [NoSceneCandidates] else []
  }

  /** The auto-tune warning, appended when auto-tuning is on and the threshold moved. */
  function TunedWarning(autoTuneThreshold: bool, baseThreshold: real, t: Tuned): seq<Warning> {
    if autoTuneThreshold && t.threshold != baseThreshold then [AutoTuned(baseThreshold, t.threshold, |t.timestamps|)] else []
  }

  /** The base run: the adaptive controller over the whole frame. */
  function BaseRun(tools: Tools, s: Settings, info: VideoInfo): Result<SceneEvaluation, string> {
    Adaptive(DetectorAt(tools.detector, None, Segments(info.durationSeconds, s.workers)),
             s.sceneThreshold, MinThreshold, TargetMinSlides(s.maxSlides))
  }

  /** The run inside a crop rectangle. */
  function CroppedRun(tools: Tools, s: Settings, info: VideoInfo, crop: CropRect): Result<SceneEvaluation, string> {
    Adaptive(DetectorAt(tools.detector, Some(crop), Segments(info.durationSeconds, s.workers)),
             s.sceneThreshold, MinThreshold, TargetMinSlides(s.maxSlides))
  }

  /** The refiner is consulted only with auto-tuning on and no scene found by the base run. */
  predicate WantsRoi(s: Settings, base: SceneEvaluation) {
    s.autoTuneThreshold && |base.timestamps| == 0
  }

  /**
   * The region-of-interest step, entered with the base evaluation and the choice so far:
   * ask the refiner for a box, crop to it, rerun the controller inside the crop and keep the
   * better run; with no box or no usable crop the choice stays as it was.
   */
  function RoiTune(tools: Tools, s: Settings, info: VideoInfo, llm: Option<LlmConfig>, base: SceneEvaluation, current: Tuned)
    : (Result<Tuned, string>, seq<Warning>)
  {
    var (roi, w) := DetectRoi(llm, info.durationSeconds, tools.sampleFrames, tools.roiOracle);
    if roi.None? then (Success(current), w)
    else
      match ResolveCropFromRoi(roi.value, info.width, info.height)
      case None => (Success(current), w)
      case Some(crop) =>
        match CroppedRun(tools, s, info, crop)
        case Failure(e) => (Failure(e), w)
        case Success(cropped) =>
          (Success(if cropped.confidence >= base.confidence + RoiMargin
                   then Tuned(cropped.threshold, cropped.timestamps,
                              AutoTune(s.autoTuneThreshold, cropped.threshold, cropped.confidence, LlmRoiStrategy, roi))
                   else current.(autoTune := current.autoTune.(roi := roi))),
           w + EvaluationWarnings(cropped))
  }

  /** The choice right after the base run. */
  function BaseTuned(s: Settings, base: SceneEvaluation): Tuned {
    Tuned(base.threshold, base.timestamps, InitialAutoTune(s.autoTuneThreshold, s.sceneThreshold, base))
  }

  /**
   * What the threshold choice of `extractSlidesWithFfmpeg` settles on, with the warnings it
   * appends (before the auto-tune warning).
   */
  function TuneBeforeWarning(tools: Tools, s: Settings, info: VideoInfo, llm: Option<LlmConfig>): (Result<Tuned, string>, seq<Warning>) {
    match BaseRun(tools, s, info)
    case Failure(e) => (Failure(e), [])
    case Success(base) =>
      if !WantsRoi(s, base) then (Success(BaseTuned(s, base)), EvaluationWarnings(base))
      else
        var (r, w) := RoiTune(tools, s, info, llm, base, BaseTuned(s, base));
        (r, EvaluationWarnings(base) + w)
  }

  /** The threshold choice with every warning it appends. */
  function Tune(tools: Tools, s: Settings, info: VideoInfo, llm: Option<LlmConfig>): (Result<Tuned, string>, seq<Warning>) {
    var (r, w) := TuneBeforeWarning(tools, s, info, llm);
    if r.Failure? then (r, w) else (r, w + TunedWarning(s.autoTuneThreshold, s.sceneThreshold, r.value))
  }

  /**
   * The region-of-interest branch of `extractSlidesWithFfmpeg`: `chosenThreshold`,
   * `sceneTimestamps` and `autoTune` (here `current`) are overwritten when the cropped run wins
   * by the margin; otherwise only the box is added to the record.
   */
  method TryRoi(tools: Tools, s: Settings, info: VideoInfo, llm: Option<LlmConfig>, base: SceneEvaluation, current: Tuned,
                warnings: seq<Warning>)
    returns (r: Result<Tuned, string>, warnings': seq<Warning>)
    ensures r == RoiTune(tools, s, info, llm, base, current).0
    ensures warnings' == warnings + RoiTune(tools, s, info, llm, base, current).1
  {
    var chosenThreshold := current.threshold;
    var sceneTimestamps := current.timestamps;
    var autoTune := current.autoTune;
    var roi;
    ghost var spec := RoiTune(tools, s, info, llm, base, current);
    ghost var detected := DetectRoi(llm, info.durationSeconds, tools.sampleFrames, tools.roiOracle);
    roi, warnings' := DetectSlideRoiWithLlm(llm, info.durationSeconds, tools.sampleFrames, tools.roiOracle, warnings);
    assert roi == detected.0 && warnings' == warnings + detected.1;
    if roi.Some? && info.width.Some? && info.width.value != 0 && info.height.Some? && info.height.value != 0 {
      var crop := ResolveCropFromRoi(roi.value, info.width, info.height);
      if crop.Some? {
        ghost var run := CroppedRun(tools, s, info, crop.value);
        var roiEvaluation;
        roiEvaluation, warnings' := DetectSceneTimestampsAdaptive(tools.detector, s.sceneThreshold, MinThreshold,
                                                                 MinInt(s.maxSlides, 5), crop, info.durationSeconds,
                                                                 s.workers, warnings');
        assert roiEvaluation == run;
        if roiEvaluation.Failure? {
          assert spec.0 == Failure(run.error) && spec.1 == detected.1;
          return Failure(roiEvaluation.error), warnings';
        }
        var cropped := roiEvaluation.value;
        AppendAssoc(warnings, detected.1, EvaluationWarnings(cropped));
        if cropped.confidence >= base.confidence + 0.05 {
          chosenThreshold := cropped.threshold;
          sceneTimestamps := cropped.timestamps;
          autoTune := AutoTune(s.autoTuneThreshold, chosenThreshold, cropped.confidence, LlmRoiStrategy, roi);
        } else {
          autoTune := autoTune.(roi := roi);
        }
        r := Success(Tuned(chosenThreshold, sceneTimestamps, autoTune));
        assert spec.0 == r && spec.1 == detected.1 + EvaluationWarnings(cropped);
        return;
      }
    }
    r := Success(Tuned(chosenThreshold, sceneTimestamps, autoTune));
    assert spec.0 == r && spec.1 == detected.1;
  }

  /**
   * The threshold choice of `extractSlidesWithFfmpeg`: the base run, the auto-tune record,
   * the region-of-interest branch when auto-tuning found nothing, and the auto-tune warning.
   */
  method AutoTuneScenes(tools: Tools, s: Settings, info: VideoInfo, llm: Option<LlmConfig>, warnings: seq<Warning>)
    returns (r: Result<Tuned, string>, warnings': seq<Warning>)
    ensures r == Tune(tools, s, info, llm).0
    ensures warnings' == warnings + Tune(tools, s, info, llm).1
  {
    var targetMinSlides := MinInt(s.maxSlides, 5);
    var baseThreshold := s.sceneThreshold;
    ghost var run := BaseRun(tools, s, info);
    var baseEvaluation;
    baseEvaluation, warnings' := DetectSceneTimestampsAdaptive(tools.detector, baseThreshold, MinThreshold, targetMinSlides,
                                                              None, info.durationSeconds, s.workers, warnings);
    assert baseEvaluation == run;
    if baseEvaluation.Failure? {
      assert Tune(tools, s, info, llm) == (Failure(run.error), []);
      return Failure(baseEvaluation.error), warnings';
    }
    var base := baseEvaluation.value;
    var autoTune :=
      if s.autoTuneThreshold && base.threshold != baseThreshold
      then AutoTune(true, base.threshold, base.confidence, AdaptiveStrategy, None)
      else AutoTune(false, base.threshold, base.confidence, NoStrategy, None);
    var tuned := Tuned(base.threshold, base.timestamps, autoTune);
    assert tuned == BaseTuned(s, base);
    assert warnings' == warnings + EvaluationWarnings(base);
    ghost var before := TuneBeforeWarning(tools, s, info, llm);
    if s.autoTuneThreshold && |base.timestamps| == 0 {
      ghost var roiRun := RoiTune(tools, s, info, llm, base, tuned);
      assert before == (roiRun.0, EvaluationWarnings(base) + roiRun.1);
      var roiTuned;
      ghost var afterBase := warnings';
      roiTuned, warnings' := TryRoi(tools, s, info, llm, base, tuned, warnings');
      assert warnings' == afterBase + roiRun.1;
      AppendAssoc(warnings, EvaluationWarnings(base), roiRun.1);
      if roiTuned.Failure? {
        return roiTuned, warnings';
      }
      tuned := roiTuned.value;
    } else {
      assert before == (Success(tuned), EvaluationWarnings(base));
    }
    assert before.0 == Success(tuned) && warnings' == warnings + before.1;
    ghost var afterChoice := warnings';
    if s.autoTuneThreshold && tuned.threshold != baseThreshold {
      warnings' := warnings' + [AutoTuned(baseThreshold, tuned.threshold, |tuned.timestamps|)];
    }
    assert warnings' == afterChoice + TunedWarning(s.autoTuneThreshold, baseThreshold, tuned);
    AppendAssoc(warnings, before.1, TunedWarning(s.autoTuneThreshold, baseThreshold, tuned));
    assert Tune(tools, s, info, llm) == (Success(tuned), before.1 + TunedWarning(s.autoTuneThreshold, baseThreshold, tuned));
    r := Success(tuned);
  }

  // ---------------------------------------------------------------------------------------
  // Properties of the threshold choice

  /**
   * With auto-tuning off the refiner is never consulted: the record is disabled, has strategy
   * `none` and no box, yet still carries the threshold the adaptive retry chose.
   */
  lemma AutoTuneOff(tools: Tools, s: Settings, info: VideoInfo, llm: Option<LlmConfig>)
    requires !s.autoTuneThreshold
    requires BaseRun(tools, s, info).Success?
    ensures var base := BaseRun(tools, s, info).value;
            var t := Tune(tools, s, info, llm);
      && t.0 == Success(Tuned(base.threshold, base.timestamps, AutoTune(false, base.threshold, base.confidence, NoStrategy, None)))
      && t.1 == EvaluationWarnings(base)
  {
  }

  /** The region-of-interest run was made, and its confidence gained at least the margin. */
  predicate RoiAdopted(tools: Tools, s: Settings, info: VideoInfo, llm: Option<LlmConfig>) {
    && BaseRun(tools, s, info).Success?
    && WantsRoi(s, BaseRun(tools, s, info).value)
    && var roi := DetectRoi(llm, info.durationSeconds, tools.sampleFrames, tools.roiOracle).0;
       && roi.Some?
       && ResolveCropFromRoi(roi.value, info.width, info.height).Some?
       && CroppedRun(tools, s, info, ResolveCropFromRoi(roi.value, info.width, info.height).value).Success?
       && CroppedRun(tools, s, info, ResolveCropFromRoi(roi.value, info.width, info.height).value).value.confidence
            >= BaseRun(tools, s, info).value.confidence + RoiMargin
  }

  /**
   * The strategy is `llm-roi` exactly when the cropped run was adopted; then its threshold,
   * timestamps and confidence are recorded with the box. Otherwise the base run's threshold and
   * timestamps stand, and the strategy is `adaptive` exactly when auto-tuning is on and the
   * retry moved the threshold.
   */
  lemma RoiAdoptedIff(tools: Tools, s: Settings, info: VideoInfo, llm: Option<LlmConfig>)
    requires Tune(tools, s, info, llm).0.Success?
    ensures var t := Tune(tools, s, info, llm).0.value;
            var base := BaseRun(tools, s, info).value;
      && (t.autoTune.strategy == LlmRoiStrategy <==> RoiAdopted(tools, s, info, llm))
      && (t.autoTune.strategy == LlmRoiStrategy ==>
            && t.autoTune.confidence >= base.confidence + RoiMargin
            && t.autoTune.roi.Some? && t.autoTune.chosenThreshold == t.threshold
            && t.autoTune.enabled == s.autoTuneThreshold)
      && (t.autoTune.strategy != LlmRoiStrategy ==>
            && t.threshold == base.threshold && t.timestamps == base.timestamps
            && t.autoTune.confidence == base.confidence
            && (t.autoTune.strategy == AdaptiveStrategy <==> s.autoTuneThreshold && base.threshold != s.sceneThreshold))
  {
    TunedChoice(tools, s, info, llm);
  }

  /**
   * The choice by cases: the base choice when the refiner is not consulted or yields no
   * usable crop, otherwise the cropped run adopted or only the box recorded.
   */
  lemma TunedChoice(tools: Tools, s: Settings, info: VideoInfo, llm: Option<LlmConfig>)
    requires Tune(tools, s, info, llm).0.Success?
    ensures BaseRun(tools, s, info).Success?
    ensures var t := Tune(tools, s, info, llm).0.value;
            var base := BaseRun(tools, s, info).value;
            var roi := DetectRoi(llm, info.durationSeconds, tools.sampleFrames, tools.roiOracle).0;
      if RoiAdopted(tools, s, info, llm) then
        var cropped := CroppedRun(tools, s, info, ResolveCropFromRoi(roi.value, info.width, info.height).value).value;
        t == Tuned(cropped.threshold, cropped.timestamps,
                   AutoTune(s.autoTuneThreshold, cropped.threshold, cropped.confidence, LlmRoiStrategy, roi))
      else
        && t.threshold == base.threshold && t.timestamps == base.timestamps
        && t.autoTune == BaseTuned(s, base).autoTune.(roi := t.autoTune.roi)
        && (t.autoTune.roi.Some? ==> WantsRoi(s, base) && t.autoTune.roi == roi)
  {
    var tune := Tune(tools, s, info, llm);
    var before := TuneBeforeWarning(tools, s, info, llm);
    assert tune.0 == before.0;
    var run := BaseRun(tools, s, info);
    assert run.Success?;
    var base := run.value;
    var current := BaseTuned(s, base);
    if WantsRoi(s, base) {
      assert before.0 == RoiTune(tools, s, info, llm, base, current).0;
      RoiTuneChoice(tools, s, info, llm, base, current);
    } else {
      assert before.0 == Success(current);
    }
  }

  /**
   * The region-of-interest step either adopts the cropped run or keeps the choice so far,
   * adding at most the refiner's box to its record.
   */
  lemma RoiTuneChoice(tools: Tools, s: Settings, info: VideoInfo, llm: Option<LlmConfig>, base: SceneEvaluation, current: Tuned)
    requires RoiTune(tools, s, info, llm, base, current).0.Success?
    ensures var t := RoiTune(tools, s, info, llm, base, current).0.value;
            var roi := DetectRoi(llm, info.durationSeconds, tools.sampleFrames, tools.roiOracle).0;
      if && roi.Some? && ResolveCropFromRoi(roi.value, info.width, info.height).Some?
         && CroppedRun(tools, s, info, ResolveCropFromRoi(roi.value, info.width, info.height).value).Success?
         && CroppedRun(tools, s, info, ResolveCropFromRoi(roi.value, info.width, info.height).value).value.confidence
              >= base.confidence + RoiMargin
      then
        var cropped := CroppedRun(tools, s, info, ResolveCropFromRoi(roi.value, info.width, info.height).value).value;
        t == Tuned(cropped.threshold, cropped.timestamps,
                   AutoTune(s.autoTuneThreshold, cropped.threshold, cropped.confidence, LlmRoiStrategy, roi))
      else
        && t.threshold == current.threshold && t.timestamps == current.timestamps
        && t.autoTune == current.autoTune.(roi := t.autoTune.roi)
        && (t.autoTune.roi == current.autoTune.roi || t.autoTune.roi == roi)
  {
    var roi := DetectRoi(llm, info.durationSeconds, tools.sampleFrames, tools.roiOracle).0;
    if roi.Some? {
      var crop := ResolveCropFromRoi(roi.value, info.width, info.height);
      if crop.Some? {
        assert CroppedRun(tools, s, info, crop.value).Success?;
      }
    }
  }

  /** A box is recorded only when the refiner found one. */
  lemma RecordedRoiIsDetected(tools: Tools, s: Settings, info: VideoInfo, llm: Option<LlmConfig>)
    requires Tune(tools, s, info, llm).0.Success?
    requires Tune(tools, s, info, llm).0.value.autoTune.roi.Some?
    ensures WantsRoi(s, BaseRun(tools, s, info).value)
    ensures Tune(tools, s, info, llm).0.value.autoTune.roi == DetectRoi(llm, info.durationSeconds, tools.sampleFrames, tools.roiOracle).0
    ensures AcceptableRoi(Tune(tools, s, info, llm).0.value.autoTune.roi.value)
  {
    TunedChoice(tools, s, info, llm);
    DetectRoiAcceptable(llm, info.durationSeconds, tools.sampleFrames, tools.roiOracle);
  }

  predicate IsAutoTunedWarning(w: Warning) {
    w.AutoTuned?
  }

  /**
   * Exactly one auto-tune warning is appended when auto-tuning is on and the chosen threshold
   * differs from the configured one, naming both and the scene count; otherwise none.
   */
  lemma AutoTunedWarningIff(tools: Tools, s: Settings, info: VideoInfo, llm: Option<LlmConfig>)
    requires Tune(tools, s, info, llm).0.Success?
    ensures var t := Tune(tools, s, info, llm).0.value;
      Filter(Tune(tools, s, info, llm).1, IsAutoTunedWarning)
        == if s.autoTuneThreshold && t.threshold != s.sceneThreshold
           then [AutoTuned(s.sceneThreshold, t.threshold, |t.timestamps|)] else []
  {
    var before := TuneBeforeWarning(tools, s, info, llm);
    TuneBeforeWarningNoAutoTuned(tools, s, info, llm);
    NoneAutoTuned(before.1);
    FilterAppend(before.1, TunedWarning(s.autoTuneThreshold, s.sceneThreshold, before.0.value), IsAutoTunedWarning);
  }

  /** Before the auto-tune warning, no warning of the threshold choice is one. */
  lemma TuneBeforeWarningNoAutoTuned(tools: Tools, s: Settings, info: VideoInfo, llm: Option<LlmConfig>)
    ensures forall w :: w in TuneBeforeWarning(tools, s, info, llm).1 ==> !w.AutoTuned?
  {
    var run := BaseRun(tools, s, info);
    if run.Success? && WantsRoi(s, run.value) {
      var base := run.value;
      var current := BaseTuned(s, base);
      var roiRun := RoiTune(tools, s, info, llm, base, current);
      assert TuneBeforeWarning(tools, s, info, llm).1 == EvaluationWarnings(base) + roiRun.1;
      RoiTuneNoAutoTuned(tools, s, info, llm, base, current);
    }
  }

  /** The region-of-interest step adds no auto-tune warning. */
  lemma RoiTuneNoAutoTuned(tools: Tools, s: Settings, info: VideoInfo, llm: Option<LlmConfig>, base: SceneEvaluation, current: Tuned)
    ensures forall w :: w in RoiTune(tools, s, info, llm, base, current).1 ==> !w.AutoTuned?
  {
    DetectRoiNoAutoTuned(llm, info.durationSeconds, tools.sampleFrames, tools.roiOracle);
    RoiTuneWarnings(tools, s, info, llm, base, current);
  }

  /** The warnings of the region-of-interest step: the refiner's, then the cropped run's. */
  lemma RoiTuneWarnings(tools: Tools, s: Settings, info: VideoInfo, llm: Option<LlmConfig>, base: SceneEvaluation, current: Tuned)
    ensures var detected := DetectRoi(llm, info.durationSeconds, tools.sampleFrames, tools.roiOracle).1;
      RoiTune(tools, s, info, llm, base, current).1 == detected
      || RoiTune(tools, s, info, llm, base, current).1 == detected + [NoSceneCandidates]
  {
  }

  lemma {:induction false} NoneAutoTuned(ws: seq<Warning>)
    requires forall w :: w in ws ==> !w.AutoTuned?
    ensures Filter(ws, IsAutoTunedWarning) == []
  {
    if ws != [] {
      NoneAutoTuned(ws[1..]);
    }
  }

  /** The refiner never reports an auto-tune warning. */
  lemma DetectRoiNoAutoTuned(llm: Option<LlmConfig>, durationSeconds: Option<real>, extract: FrameExtractor, oracle: RoiOracle)
    ensures var ws := DetectRoi(llm, durationSeconds, extract, oracle).1;
      forall w :: w in ws ==> !w.AutoTuned?
  {
    if llm.Some? && |llm.value.attempts| > 0 {
      var frames := |BuildRoiSampleTimestamps(durationSeconds)|;
      InferNoAutoTuned(oracle, llm.value.attempts, llm.value, frames);
    }
  }

  lemma {:induction false} InferNoAutoTuned(oracle: RoiOracle, attempts: seq<LlmAttempt>, llm: LlmConfig, frames: nat)
    ensures var ws := Infer(oracle, attempts, llm, frames).warnings;
      forall w :: w in ws ==> !w.AutoTuned?
  {
    if attempts != [] {
      InferNoAutoTuned(oracle, attempts[1..], llm, frames);
      if Usable(attempts[0], llm) {
        AttemptWarningsNoAutoTuned(oracle, attempts[0], llm.verbose, frames);
      }
    }
  }

  lemma {:induction false} AttemptWarningsNoAutoTuned(oracle: RoiOracle, attempt: LlmAttempt, verbose: bool, frames: nat)
    ensures var ws := AttemptWarnings(oracle, attempt, verbose, frames);
      forall w :: w in ws ==> !w.AutoTuned?
  {
    if frames > 0 {
      AttemptWarningsNoAutoTuned(oracle, attempt, verbose, frames - 1);
    }
  }

  // ---------------------------------------------------------------------------------------
  // From timestamps to slides

  /** `trimmed.map((slide) => slide.timestamp)`. */
  function Times(slides: seq<SlideImage>): (r: seq<real>)
    ensures |r| == |slides| && forall i :: 0 <= i < |slides| ==> r[i] == slides[i].timestamp
  {
    seq(|slides|, i requires 0 <= i < |slides| => slides[i].timestamp)
  }

  /** What an extraction run returns. */
  datatype SlidesRun = SlidesRun(slides: seq<SlideImage>, autoTune: AutoTune)

  /** The slides for the chosen timestamps, with the warnings the filters append. */
  function Finish(tools: Tools, s: Settings, outputDir: string, t: Tuned): (Result<SlidesRun, string>, seq<Warning>) {
    var combined := MergedTimestamps(t.timestamps, [], s.minDurationSeconds);
    var trimmed := ApplyMaxSlidesFilter(Placeholders(combined), s.maxSlides, []);
    match ExtractedFrames(tools.writeFrame, outputDir, Times(trimmed.slides))
    case Failure(e) => (Failure(e), trimmed.warnings)
    case Success(extracted) =>
      (Success(SlidesRun(MinDurationFiltered(extracted, s.minDurationSeconds), t.autoTune)),
       trimmed.warnings + MinDurationWarnings(extracted, s.minDurationSeconds))
  }

  /** What `extractSlidesWithFfmpeg` returns, with every warning it appends. */
  function Run(tools: Tools, s: Settings, probe: ProbeOutput, llm: Option<LlmConfig>, outputDir: string)
    : (Result<SlidesRun, string>, seq<Warning>)
  {
    var (tuned, w) := Tune(tools, s, ProbedInfo(probe), llm);
    match tuned
    case Failure(e) => (Failure(e), w)
    case Success(t) =>
      var (r, w') := Finish(tools, s, outputDir, t);
      (r, w + w')
  }

  /**
   * The tail of `extractSlidesWithFfmpeg`: merge the chosen timestamps, cap them at `maxSlides`,
   * grab one frame per remaining timestamp, then apply the min-duration filter.
   */
  method SlidesFromTimestamps(tools: Tools, s: Settings, outputDir: string, t: Tuned, warnings: seq<Warning>)
    returns (r: Result<SlidesRun, string>, warnings': seq<Warning>)
    ensures r == Finish(tools, s, outputDir, t).0
    ensures warnings' == warnings + Finish(tools, s, outputDir, t).1
  {
    var combined := MergeTimestamps(t.timestamps, [], s.minDurationSeconds);
    var trimmed := ApplyMaxSlidesFilter(Placeholders(combined), s.maxSlides, warnings);
    ghost var capped := ApplyMaxSlidesFilter(Placeholders(combined), s.maxSlides, []);
    assert trimmed.warnings == warnings + capped.warnings;
    assert trimmed.slides == capped.slides;
    ghost var frames := ExtractedFrames(tools.writeFrame, outputDir, Times(capped.slides));
    warnings' := trimmed.warnings;
    var extracted := ExtractFramesAtTimestamps(tools.writeFrame, outputDir, Times(trimmed.slides), s.workers);
    if extracted.Failure? {
      assert Finish(tools, s, outputDir, t) == (Failure(frames.error), capped.warnings);
      return Failure(extracted.error), warnings';
    }
    var filtered, w, _ := ApplyMinDurationFilter(extracted.value, s.minDurationSeconds, warnings');
    warnings' := w;
    r := Success(SlidesRun(filtered, t.autoTune));
    AppendAssoc(warnings, capped.warnings, MinDurationWarnings(frames.value, s.minDurationSeconds));
    assert Finish(tools, s, outputDir, t) ==
      (r, capped.warnings + MinDurationWarnings(frames.value, s.minDurationSeconds));
  }

  /** `extractSlidesWithFfmpeg`: probe, choose the threshold, then build the slides. */
  method ExtractSlidesWithFfmpeg(tools: Tools, s: Settings, probe: ProbeOutput, llm: Option<LlmConfig>,
                                 outputDir: string, warnings: seq<Warning>)
    returns (r: Result<SlidesRun, string>, warnings': seq<Warning>)
    ensures r == Run(tools, s, probe, llm, outputDir).0
    ensures warnings' == warnings + Run(tools, s, probe, llm, outputDir).1
  {
    var info := ProbeVideoInfo(probe);
    ghost var tune := Tune(tools, s, info, llm);
    var tuned;
    tuned, warnings' := AutoTuneScenes(tools, s, info, llm, warnings);
    if tuned.Failure? {
      assert Run(tools, s, probe, llm, outputDir) == (Failure(tune.0.error), tune.1);
      return Failure(tuned.error), warnings';
    }
    ghost var finish := Finish(tools, s, outputDir, tuned.value);
    r, warnings' := SlidesFromTimestamps(tools, s, outputDir, tuned.value, warnings');
    AppendAssoc(warnings, tune.1, finish.1);
    assert Run(tools, s, probe, llm, outputDir) == (finish.0, tune.1 + finish.1);
  }

    /**
   * Slides as an extraction run hands them back: indexed `1..N`, at most a positive `maxSlides`
   * of them, each a frame file in the output directory.
   */
  ghost predicate WellBuilt(slides: seq<SlideImage>, maxSlides: int, outputDir: string) {
    && IndexedFromOne(slides)
    && (maxSlides > 0 ==> |slides| <= maxSlides)
    && forall i :: 0 <= i < |slides| ==> exists k: nat :: slides[i].imagePath == FramePath(outputDir, k)
  }

  /** The slides the tail builds are well built. */
  lemma FinishIndexed(tools: Tools, s: Settings, outputDir: string, t: Tuned)
    requires Finish(tools, s, outputDir, t).0.Success?
    ensures WellBuilt(Finish(tools, s, outputDir, t).0.value.slides, s.maxSlides, outputDir)
  {
    var combined := MergedTimestamps(t.timestamps, [], s.minDurationSeconds);
    var trimmed := ApplyMaxSlidesFilter(Placeholders(combined), s.maxSlides, []);
    var ts := Times(trimmed.slides);
    var frames := ExtractedFrames(tools.writeFrame, outputDir, ts);
    assert frames.Success?;
    ExtractedFramesInOrder(tools.writeFrame, outputDir, ts);
    var extracted := frames.value;
    forall j | 0 <= j < |extracted| ensures extracted[j].imagePath == FramePath(outputDir, j + 1) {
      assert extracted[j] == FrameSlide(outputDir, ts, j);
    }
    FilteredFramesWellBuilt(extracted, s.minDurationSeconds, s.maxSlides, outputDir);
    assert Finish(tools, s, outputDir, t).0.value.slides == MinDurationFiltered(extracted, s.minDurationSeconds);
  }

  /** The min-duration filter keeps frames numbered in order well built. */
  lemma FilteredFramesWellBuilt(extracted: seq<SlideImage>, minDurationSeconds: real, maxSlides: int, outputDir: string)
    requires IndexedFromOne(extracted)
    requires maxSlides > 0 ==> |extracted| <= maxSlides
    requires forall j :: 0 <= j < |extracted| ==> extracted[j].imagePath == FramePath(outputDir, j + 1)
    ensures WellBuilt(MinDurationFiltered(extracted, minDurationSeconds), maxSlides, outputDir)
  {
    MinDurationFilteredFromInput(extracted, minDurationSeconds);
    var slides := MinDurationFiltered(extracted, minDurationSeconds);
    forall i | 0 <= i < |slides| ensures exists k: nat :: slides[i].imagePath == FramePath(outputDir, k) {
      assert FileAndTimeIn(slides[i], extracted);
      var j :| 0 <= j < |extracted| && slides[i].imagePath == extracted[j].imagePath && slides[i].timestamp == extracted[j].timestamp;
      assert slides[i].imagePath == FramePath(outputDir, j + 1);
    }
  }

  /** A successful run yields well-built slides. */
  lemma RunSlidesIndexed(tools: Tools, s: Settings, probe: ProbeOutput, llm: Option<LlmConfig>, outputDir: string)
    requires Run(tools, s, probe, llm, outputDir).0.Success?
    ensures WellBuilt(Run(tools, s, probe, llm, outputDir).0.value.slides, s.maxSlides, outputDir)
  {
    var tune := Tune(tools, s, ProbedInfo(probe), llm);
    assert tune.0.Success?;
    assert Run(tools, s, probe, llm, outputDir).0 == Finish(tools, s, outputDir, tune.0.value).0;
    FinishIndexed(tools, s, outputDir, tune.0.value);
  }
}
