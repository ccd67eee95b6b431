/**
 * The append-only warning log of a slide-extraction run. Each warning the pipeline can
 * append is a constructor; `Message` renders it the way the source's template strings do.
 */
module Diagnostics {
  import opened Text

  datatype Warning =
    | NoSceneCandidates
    | AutoTuned(fromThreshold: real, toThreshold: real, scenes: nat)
    | RoiModelSelected(modelId: string)
    | RoiDetectionFailed(error: string)
    | NoRoiModelSucceeded
    | RoiModelFailed(modelId: string, message: string)
    | TrimmedToMax(maxSlides: nat)
    | FilteredByMinDuration(dropped: nat)

  /**
   * The text of a warning. JavaScript's rendering of a non-integer number is outside the
   * model and is the parameter `showNumber`.
   */
  function Message(w: Warning, showNumber: real -> string): (m: string)
    ensures |m| > 0
  {
    match w
    case NoSceneCandidates => "Scene detection did not find any candidate slide changes."
    case AutoTuned(a, b, n) =>
      "Auto-tuned scene threshold from " + showNumber(a) + " to " + showNumber(b)
      + " (detected " + NatToString(n) + " scenes)"
    case RoiModelSelected(id) => "LLM ROI model " + id + " selected for slide tuning"
    case RoiDetectionFailed(e) => "LLM ROI detection failed: " + e
    case NoRoiModelSucceeded => "No LLM ROI model succeeded; continuing without ROI."
    case RoiModelFailed(id, msg) => "ROI model " + id + " failed: " + msg
    case TrimmedToMax(n) => "Trimmed slides to max " + NatToString(n)
    case FilteredByMinDuration(k) => "Filtered " + NatToString(k) + " slides by min duration"
  }
}
