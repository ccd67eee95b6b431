# Slide extraction, transcript text and page-text clamping, in Dafny

This project models the deterministic core of the `summarize` tool's slide extractor
(`src/slides/extract.ts`), its two transcript-to-text converters
(`packages/core/src/content/transcript/parse.ts`) and the text clamp of its browser
extension's content script (`apps/chrome-extension/src/entrypoints/extract.content.ts`), and
proves properties of the model.

The slide extractor turns a video into a list of slide images:

1. It probes the video's duration and frame size.
2. It detects scene changes with a frame-difference threshold. One adaptive retry at half the
   threshold runs when too few scenes are found.
3. When auto-tuning finds no scene at all, it asks an LLM for the slide's region of interest,
   crops to it and tries again.
4. It merges the timestamps that lie too close together and caps them at `maxSlides`.
5. It grabs one frame per timestamp and drops the slides that follow each other too closely.
6. Optionally, it runs OCR over the slides.

The external tools (the scene detector, the frame grab, the prober, tesseract, yt-dlp and the
LLM) are oracle parameters: functions from their inputs to their outputs or errors. The logic
around them is modelled as the source writes it:

- The bounded executor is a loop over a shared cursor and a slot array.
- The filters and the adaptive controller are loops that reassign their state.
- The stderr line buffer of the process runner is a class whose fields change per chunk.
- The parsers, slugs and decisions are functions.

Every method is proved equal to a specification function. What the source promises is proved
as lemmas about those functions.

The warnings a run collects are a value (`seq<Warning>`) passed into and out of each method.
In the source they are a shared array that every stage appends to.

Modules:

- `Text`, `Seqs`, `Numeric`: the JavaScript string, array and number operations the code uses.
- `Wrappers`: `Option` and `Result`.
- `SlideTypes`: the records of `src/slides/types.ts`.
- `Diagnostics`: the warning texts.
- `Executor`: `runWithConcurrency`.
- `SceneDetection`: showinfo parsing, segments, the detector run and the adaptive retry.
- `RoiRefiner`: the LLM region-of-interest refiner.
- `SlideFilters`: `mergeTimestamps`, `applyMaxSlidesFilter`, `applyMinDurationFilter`.
- `FrameExtraction`: `extractFramesAtTimestamps`.
- `SlideFiles`: frame file names, `prepareSlidesDir`, the download choice.
- `Probe`: `probeVideoInfo`.
- `ProcessRunner`: the stderr buffer of `runProcess`.
- `SlideOcr`: the OCR stage.
- `SlidePipeline`: `extractSlidesWithFfmpeg`.
- `SlideSources`: `resolveSlidesWorkers`, `resolveSlideSource`, `buildDirectSourceId`.
- `TranscriptText`: `vttToPlainText` and `jsonTranscriptToPlainText`.
- `ExtensionExtract`: `clampText` and the answer of `extract`.

Where the type declarations and the code disagree, the model follows the code:

- `SlideAutoTune.strategy` in `src/slides/types.ts` lists `'hash'`. `extractSlidesWithFfmpeg`
  writes `'adaptive'` for an adaptive retry, so `Strategy` has `AdaptiveStrategy`.

## Model

| member | source | states |
|---|---|---|
| `Executor.ClampConcurrency` | src/slides/extract.ts:1226 | The worker count is clamped to 1..16: an in-range count is kept, a lower one gives 1, a higher one 16. |
| `Executor.Range` | src/slides/extract.ts:1231-1235 | The indices the cursor hands out from `lo` up to `hi`, in increasing order. |
| `Executor.Outcomes` | src/slides/extract.ts:1235 | There is one outcome per task, and outcome `i` is what `tasks[i]` returns. |
| `Executor.Collect` | src/slides/extract.ts:1239-1241 | If every task succeeds, the result holds one value per task in task order. Otherwise it is the error of a failing task all of whose predecessors succeeded. |
| `Executor.RunWithConcurrency` | src/slides/extract.ts:1221-1242 | The results are in task order, not completion order: `results[i]` comes from `tasks[i]`. No tasks gives `[]` and starts no worker. Otherwise `min(clamped concurrency, task count)` workers start, between 1 and 16. On success each index 0..n-1 is claimed exactly once, in order. A failure stops at the first failing task, after claiming exactly the indices up to it. |
| `Executor.CollectFirstFailure` | src/slides/extract.ts:1235-1240 | If task `i` fails and every task before it succeeds, the run fails with task `i`'s error. |
| `Executor.CollectAllSuccess` | src/slides/extract.ts:1235-1241 | If every task succeeds, the run returns their values in task order. |
| `Executor.FailureCollected` | src/slides/extract.ts:1235-1240 | When task `i` fails after tasks 0..i-1 succeeded, `i` is the first failure and the run fails with its error. |
| `Executor.FilledCollected` | src/slides/extract.ts:1235-1241 | Once slot `k` holds the value of task `k` for every `k`, the run succeeds with the slots' values in task order. |
| `Numeric.Clamp` | src/slides/extract.ts:504-508 | `clamp` lies in `[min, max]` when `min <= max`. A value inside is unchanged, a value below gives `min`, a value above gives `max`. |
| `Numeric.ClampInt` | src/slides/extract.ts:520-523 | The same `clamp` on integer pixel values, defined through the real clamp: in range when `lo <= hi`, the value itself when inside, `lo` below and `hi` above. |
| `Numeric.Round` | src/slides/extract.ts:822 | `Math.round(x)` lies within half a unit of `x`, and halves round up. |
| `Numeric.Ceil` | src/slides/extract.ts:833 | `Math.ceil(x)` is the least integer at or above `x`. |
| `Numeric.RoundOfInteger` | src/slides/extract.ts:1226 | Rounding a whole worker count leaves it unchanged. |
| `SlideFiles.FrameNumber` | src/slides/extract.ts:470 | `String(n).padStart(4, '0')` has at least four characters, all digits. |
| `SlideFiles.SlideFileName` | src/slides/extract.ts:470 | A frame's name is `slide_`, the padded number, then `.png`. |
| `SlideFiles.JoinPathInjective` | src/slides/extract.ts:470 | Within one directory, distinct file names give distinct paths. |
| `SlideFiles.NatToStringValue` | src/slides/extract.ts:470 | `String(n)` reads back as `n`. |
| `SlideFiles.ZerosValue` | src/slides/extract.ts:470 | The zeros `padStart` adds do not change the number's value. |
| `SlideFiles.FrameNumberValue` | src/slides/extract.ts:470 | The padded frame number reads back as the frame number. |
| `SlideFiles.SlideFileNamesDistinct` | src/slides/extract.ts:469-470 | Distinct slide numbers name distinct files, so no frame overwrites another. |
| `SlideFiles.StaleEntries` | src/slides/extract.ts:234-247 | `prepareSlidesDir` removes exactly the `slide_*.png` entries and `slides.json`, and nothing else. |
| `SlideFiles.OwnFilesAreStale` | src/slides/extract.ts:239-244 | Every frame file the extractor writes, and `slides.json`, is removed before the next run. |
| `SlideFiles.ForeignFilesSurvive` | src/slides/extract.ts:239-244 | Look-alikes survive: `slide_0001.jpg`, `slides.json.bak` and `notes.png`. |
| `SlideFiles.ChooseDownloadedFile` | src/slides/extract.ts:279-294 | The candidate loop skips `.part`/`.ytdl` entries and keeps entries that stat as files. It sorts them by size, largest first, and takes the first. The result equals the specification `ChosenDownload`. |
| `SlideFiles.CandidatesFromEntries` | src/slides/extract.ts:281-288 | Every candidate comes from a listed regular file that is not a partial download. |
| `SlideFiles.EntriesAreCandidates` | src/slides/extract.ts:281-288 | Every listed regular file that is not a partial download is a candidate. |
| `SlideFiles.ChosenDownloadIsLargest` | src/slides/extract.ts:279-294 | The download fails, with `yt-dlp completed but no video file was downloaded.`, exactly when there is no candidate. Otherwise the chosen path is a candidate, and no candidate is larger. |
| `SlideFiles.ChosenDownloadIsFirstLargest` | src/slides/extract.ts:293-294 | The size sort is stable, so the chosen path belongs to the first-listed largest candidate: no candidate is larger and every earlier candidate is strictly smaller. |
| `SlideFilters.GreedyKeep` | src/slides/extract.ts:1097-1104 | The greedy keep-if-far-enough scan shared by `mergeTimestamps` and `applyMinDurationFilter` never returns more elements than it is given. |
| `SlideFilters.GreedyKeepStep` | src/slides/extract.ts:1097-1101 | The scan keeps one more element exactly when it lies at least the gap after the last element kept so far, or nothing is kept yet. |
| `SlideFilters.GreedyKeepSubsequence` | src/slides/extract.ts:1097-1104 | The scan keeps a subsequence of its input: nothing is added and the order is kept. |
| `SlideFilters.GreedyKeepMembers` | src/slides/extract.ts:1097-1104 | Every kept element is an input element. |
| `SlideFilters.GreedyKeepGaps` | src/slides/extract.ts:1097-1104 | Consecutive kept elements lie at least the gap apart. |
| `SlideFilters.GreedyKeepFirst` | src/slides/extract.ts:1123-1125 | The first input element is always kept, and it comes first. |
| `SlideFilters.GreedyKeepCovers` | src/slides/extract.ts:1097-1104 | On input in key order, every element lies less than the gap after some kept element at or before it. |
| `SlideFilters.MinGap` | src/slides/extract.ts:1122 | The gap of `mergeTimestamps` is at least 0.1 and at least half the minimum duration. |
| `SlideFilters.MergeTimestamps` | src/slides/extract.ts:1111-1129 | The loop equals the specification `MergedTimestamps`: the greedy scan over the sorted concatenation of both lists. |
| `SlideFilters.MergedTimestampsProperties` | src/slides/extract.ts:1111-1129 | The output is empty exactly for empty input. Otherwise it is a subsequence of the sorted input, starts with the smallest input value, and climbs by at least the gap at every step, so it is strictly increasing. |
| `SlideFilters.Reindex` | src/slides/extract.ts:1108 | The re-indexed slides carry indices `1..N` in order and are otherwise unchanged. |
| `SlideFilters.ApplyMaxSlidesFilter` | src/slides/extract.ts:1184-1199 | A non-positive cap, or a list no longer than the cap, is returned unchanged, with no warning and no file removed. Otherwise the first `maxSlides` slides are returned, re-indexed `1..maxSlides` and otherwise unchanged. The images of the dropped slides that have one are removed, and exactly `Trimmed slides to max N` is appended. |
| `SlideFilters.Placeholders` | src/slides/extract.ts:428 | There is one placeholder slide per merged timestamp, indexed `1..N`, with that timestamp and no image. |
| `SlideFilters.TrimFiveToThree` | src/slides/extract.ts:1184-1199 | Five timestamps under a cap of three give slides 1, 2, 3 at times 1, 2, 3 and one warning. |
| `SlideFilters.NoPathsFiltered` | src/slides/extract.ts:1192-1194 | Placeholder slides without an image remove no file. |
| `SlideFilters.ApplyMinDurationFilter` | src/slides/extract.ts:1089-1109 | A non-positive minimum returns the slides as they are. Otherwise the result is the greedy scan by timestamp, re-indexed from 1. One removed path is recorded per dropped slide, each an input slide's path. `Filtered K slides by min duration` is appended exactly when K > 0. |
| `SlideFilters.MinDurationProperties` | src/slides/extract.ts:1094-1108 | The first slide survives, consecutive survivors lie at least the minimum apart, and indices run `1..N`. Every survivor is an input slide in input order with only its index changed. |
| `SlideFilters.MinDurationDropsAreClose` | src/slides/extract.ts:1097-1103 | On slides in time order, every slide lies less than the minimum after a kept slide. So a dropped slide is close to the last slide kept before it. |
| `SlideFilters.MinDurationFilteredFromInput` | src/slides/extract.ts:1089-1109 | For slides indexed `1..N`, the output is indexed `1..M` with `M <= N`, and each output slide has an input slide's image and time. |
| `FrameExtraction.FrameSlide` | src/slides/extract.ts:490 | The record for position `i` has index `i + 1` and time `timestamps[i]`. |
| `FrameExtraction.ExtractFramesAtTimestamps` | src/slides/extract.ts:452-501 | The method equals the specification `ExtractedFrames`: the executor's first error, or the task results sorted by index. |
| `FrameExtraction.FrameOutcomes` | src/slides/extract.ts:469-491 | Task `i` writes frame `i + 1` and returns its record, or fails with the grab's error. |
| `FrameExtraction.ExtractedFramesInOrder` | src/slides/extract.ts:469-497 | A successful extraction returns one slide per timestamp, in timestamp order. Slide `i` has index `i + 1`, time `timestamps[i]` and its own `slide_NNNN.png`. |
| `FrameExtraction.ExtractedFramesFailure` | src/slides/extract.ts:469-494 | The extraction succeeds exactly when every grab does. Otherwise it fails with the error of the first failed grab. |
| `FrameExtraction.FramePathsDistinct` | src/slides/extract.ts:470 | No two slides of one extraction write the same file. |
| `SlideOcr.SplitLinesNoNewline` | src/slides/extract.ts:1312 | No piece of `split(/\r?\n/)` contains a newline. |
| `SlideOcr.OcrLinesProperties` | src/slides/extract.ts:1310-1318 | Every kept line is trimmed and at least 2 characters long. A kept line over 20 characters contains a space. Every kept line holds an ASCII letter or digit and no newline. The kept lines keep their input order. |
| `SlideOcr.CleanOcrTextLines` | src/slides/extract.ts:1317 | The cleaned text is empty exactly when no line is kept. Otherwise splitting it at newlines gives the kept lines back. |
| `SlideOcr.CountAlnum` | src/slides/extract.ts:1324 | The letters and digits counted are at most the length. The count is 0 exactly without any, and the full length exactly when the text has nothing else. |
| `SlideOcr.ConfidenceBounds` | src/slides/extract.ts:1320-1326 | The confidence lies in [0, 1]. It is 0 exactly for text without letters or digits, the empty text included. It is 1 exactly for non-empty text made only of them. |
| `SlideOcr.ConfidenceExamples` | src/slides/extract.ts:1320-1326 | `''` scores 0, `ABC123` scores 1 and `a b` scores 2/3. |
| `SlideOcr.OcrSlide` | src/slides/extract.ts:1249-1260 | The OCR task changes only a slide's OCR fields. |
| `SlideOcr.RunOcrOnSlides` | src/slides/extract.ts:1244-1264 | The method equals the specification `OcrResults`: every slide annotated, sorted by index. |
| `SlideOcr.OcrResultsInOrder` | src/slides/extract.ts:1249-1263 | On slides indexed `1..N`, their order is kept and slide `i` gets its own OCR result. A failed OCR call gives that slide alone `''` and confidence 0. |
| `SlideOcr.OcrFieldsWellFormed` | src/slides/extract.ts:1249-1260 | Both OCR fields are always set, and the confidence lies in [0, 1]. A successful run stores the cleaned tesseract output. |
| `Probe.LastVideoDuration` | src/slides/extract.ts:1008-1015 | A stream duration, when found, is positive. |
| `Probe.ProbedInfo` | src/slides/extract.ts:986-1023 | A reported duration is positive. |
| `Probe.ProbeVideoInfo` | src/slides/extract.ts:975-1024 | The stream loop equals the specification `ProbedInfo`. No prober, a failed run or unparsable output gives all-unknown information. Otherwise width and height come from the first video stream carrying one. The duration comes from the last video stream with a positive one, else from the container's positive duration, else it is unknown. |
| `Probe.FirstVideoWidthIsFirst` | src/slides/extract.ts:1010 | A reported width belongs to a video stream, and no earlier video stream carried one. |
| `Probe.NoVideoWidth` | src/slides/extract.ts:1010 | Without a reported width, no video stream carried one. |
| `Probe.LastVideoDurationIsLast` | src/slides/extract.ts:1012-1013 | A stream duration belongs to a video stream, and no later video stream has a positive one. |
| `ProcessRunner.CompleteLinesAppend` | src/slides/extract.ts:1055-1057 | Splitting the accumulated buffer is chunk-boundary independent: the complete lines of `a + b` are those of `a`, then those of `a`'s residue followed by `b`. |
| `ProcessRunner.SplitsOfAppend` | src/slides/extract.ts:1056 | The pieces of `a + b` are the complete pieces of `a`, then the pieces of `a`'s residue followed by `b`. |
| `ProcessRunner.StreamedLinesAppend` | src/slides/extract.ts:1054-1061 | The lines the callback has received after `a + b` are those after `a`, then the non-empty complete lines of the residue followed by `b`. |
| `ProcessRunner.CapturedFrozen` | src/slides/extract.ts:1046-1049 | Once the capture reaches 8192 characters, later lines leave it unchanged. |
| `ProcessRunner.CapturedPrefix` | src/slides/extract.ts:1046-1049 | The capture is a prefix of every line followed by its newline, and below the limit it is all of them. |
| `ProcessRunner.StderrCapture.constructor` | src/slides/extract.ts:1041-1042 | Everything starts empty. |
| `ProcessRunner.StderrCapture.FlushLine` | src/slides/extract.ts:1044-1050 | The line goes to the callback. It is captured with a terminating newline only while the capture is below 8192 characters. |
| `ProcessRunner.StderrCapture.OnData` | src/slides/extract.ts:1054-1061 | The chunk is appended, and the invariant holds afterwards. The callback has then received exactly the non-empty complete lines of everything received, and the capture is their bounded copy. |
| `ProcessRunner.StderrCapture.FlushNonEmpty` | src/slides/extract.ts:1058-1060 | The empty lines are skipped and the others flushed, in order. |
| `ProcessRunner.StderrCapture.OnClose` | src/slides/extract.ts:1074-1078 | After the close, the callback has received every streamed line and then the trimmed non-blank residue. The capture is their bounded copy. |
| `RoiRefiner.NormalizeRoiValue` | src/slides/extract.ts:794-800 | Only finite numbers give a value. Values in (1, 100] are divided by 100, and others pass unchanged. |
| `RoiRefiner.RoiFromRecord` | src/slides/extract.ts:763-788 | A missing `x`/`left` or `y`/`top` gives null, and so does a missing or non-positive width or height. Otherwise the four fields are clamped to [0, 1]. A result is always inside the unit square and at least 0.2 wide and high. |
| `RoiRefiner.ParseSlideRoi` | src/slides/extract.ts:756-792 | Empty or `null` text gives null, and so does an answer without a parsable `{...}`. Otherwise the result is that of the record. |
| `RoiRefiner.AcceptsFractionalBox` | src/slides/extract.ts:763-788 | An answer that is already an acceptable fractional box is returned as it is. |
| `RoiRefiner.ReadsPercentages` | src/slides/extract.ts:763-788 | `{x: 10, y: 20, width: 50, height: 60}` is read as the box (0.1, 0.2, 0.5, 0.6). |
| `RoiRefiner.RejectsTinyBox` | src/slides/extract.ts:787 | A box 0.1 wide and high is rejected. |
| `RoiRefiner.SameCoordinates` | src/slides/extract.ts:763-788 | Only the coordinates after the fallbacks matter. |
| `RoiRefiner.AliasesHidden` | src/slides/extract.ts:763-766 | A present `x`, `y`, `width` or `height` hides its alias `left`, `top`, `w` or `h`. |
| `RoiRefiner.AliasesFallBack` | src/slides/extract.ts:763-766 | A missing `x`, `y`, `width` or `height` is read from its alias. |
| `RoiRefiner.RightEdgeGivesWidth` | src/slides/extract.ts:769-770 | Without a width, `right - x` stands in for it. |
| `RoiRefiner.PickMedian` | src/slides/extract.ts:805-808 | The median of no values is 0.5. Otherwise it is one of the values. |
| `RoiRefiner.MedianIsInput` | src/slides/extract.ts:805-808 | The element at `floor(n / 2)` of the sorted values is an input value. |
| `RoiRefiner.MedianRank` | src/slides/extract.ts:805-808 | The median is the upper middle: the sorted values before it are no larger, and those after it no smaller. |
| `RoiRefiner.MedianOfOne` | src/slides/extract.ts:805-808 | The median of one value is that value. |
| `RoiRefiner.MergeRois` | src/slides/extract.ts:802-819 | `mergeRois` is null exactly for no boxes. Otherwise each coordinate is one of the inputs' values for that coordinate. |
| `RoiRefiner.MergeOfOne` | src/slides/extract.ts:802-819 | A single box is its own merge. |
| `RoiRefiner.MergeKeepsAcceptable` | src/slides/extract.ts:802-819 | The merge of acceptable boxes is acceptable. |
| `RoiRefiner.ClampCrop` | src/slides/extract.ts:520-524 | The clamped crop has width and height of at least 1 and lies inside the frame: `x + width <= W`, `y + height <= H`. A box that already fits is kept as it is. |
| `RoiRefiner.ResolveCropFromRoi` | src/slides/extract.ts:510-525 | A crop exists exactly when both frame sizes are known and positive and the rounded box is at least 16 pixels each way. A crop always lies inside the frame. |
| `RoiRefiner.CropOfFittingBox` | src/slides/extract.ts:510-525 | A box whose rounded pixels already fit the frame is used exactly as rounded. |
| `RoiRefiner.CropNearEdgeIsNarrow` | src/slides/extract.ts:520-523 | Clamping near the right edge can leave a crop under 16 pixels wide: a box at 95% of a 100-pixel frame gives width 5. |
| `RoiRefiner.BuildRoiSampleTimestamps` | src/slides/extract.ts:579-583 | An unknown or non-positive duration gives `[0]`. Otherwise there are three non-decreasing sample times. From 0.1 s on, they lie in `[0, d - 0.1]`. |
| `RoiRefiner.ShortClipSamplesBeforeStart` | src/slides/extract.ts:579-583 | On a clip shorter than 0.1 s, every sample time is `d - 0.1`, before the clip starts. |
| `RoiRefiner.UsableIff` | src/slides/extract.ts:635-641 | These attempts are tried:<br>- Google, Anthropic and OpenRouter attempts by their configured flag alone.<br>- xAI and Z.AI attempts by a non-empty key.<br>- OpenAI attempts by their own key override when it is set, even to an empty key, and by the shared key otherwise. |
| `RoiRefiner.PrefixedTwice` | src/slides/extract.ts:633-664 | Warnings added in two steps are added in order. |
| `RoiRefiner.FrameRoi` | src/slides/extract.ts:699-737 | A thrown model call gives no box. A box is always acceptable. |
| `RoiRefiner.AttemptRois` | src/slides/extract.ts:644-659 | Every box an attempt collects is acceptable. |
| `RoiRefiner.InferOutcome` | src/slides/extract.ts:633-665 | A box is picked exactly when a model is named. The box is acceptable, and it is the merge of a usable attempt's non-empty boxes, named by that attempt. Without a box, the last warning is `No LLM ROI model succeeded; continuing without ROI.` |
| `RoiRefiner.NoUsableAttemptNoRoi` | src/slides/extract.ts:633-665 | With no usable attempt, nothing is asked and the only warning is the final one. |
| `RoiRefiner.InferSlideRoiFromFrame` | src/slides/extract.ts:686-738 | One frame is asked about. A failure adds `ROI model <id> failed: <message>` only in verbose mode. |
| `RoiRefiner.RunAttempt` | src/slides/extract.ts:643-659 | The `rois` list equals the attempt's boxes in frame order, and `lastRoi` is set only when `rois` is not empty. |
| `RoiRefiner.TryAttempt` | src/slides/extract.ts:643-661 | A usable attempt yields the merge of its boxes. The `lastRoi` fallback is dead: only an empty list fails to merge. |
| `RoiRefiner.InferAt` | src/slides/extract.ts:633-662 | One turn of the attempt loop: skip, win with the merged box, or add the warnings and go on. |
| `RoiRefiner.InferSkipped` | src/slides/extract.ts:641 | Skipping an unusable attempt leaves the rest unchanged. |
| `RoiRefiner.InferFellThrough` | src/slides/extract.ts:643-662 | A usable attempt without a merged box adds its warnings and hands over to the next attempt. |
| `RoiRefiner.InferSucceeded` | src/slides/extract.ts:660 | A usable attempt whose boxes merge ends the loop with that box and its model. |
| `RoiRefiner.AttemptStep` | src/slides/extract.ts:633-662 | One loop turn keeps the loop invariant against the specification `Infer`. |
| `RoiRefiner.InferSlideRoiFromFrames` | src/slides/extract.ts:622-665 | The box, the model id and the appended warnings equal the specification `Infer`: the first usable attempt whose boxes merge wins. |
| `RoiRefiner.FirstExtractionError` | src/slides/extract.ts:549-559 | No error exactly when every remaining sample frame is extracted. |
| `RoiRefiner.DetectSlideRoiWithLlm` | src/slides/extract.ts:527-577 | The box and the appended warnings equal the specification `DetectRoi`:<br>- no LLM config or no attempts gives no box;<br>- a frame-extraction failure gives `LLM ROI detection failed: ...` and no box;<br>- otherwise the inference, with `LLM ROI model <id> selected for slide tuning` when it picks one with a non-empty id. |
| `RoiRefiner.ModelAnnouncedIff` | src/slides/extract.ts:561-570 | When every sample frame was extracted, the box is the inference's box, and a model id comes with a box and only with one. `LLM ROI model <id> selected for slide tuning` follows the inference warnings exactly when there is a box and its id is non-empty; an empty id is falsy and announces nothing. |
| `RoiRefiner.DetectRoiAcceptable` | src/slides/extract.ts:527-577 | The refiner only ever yields a box that the answer parser accepts. |
| `SceneDetection.DigitPrefix` | src/slides/extract.ts:227 | The longest run of ASCII digits at the front. |
| `SceneDetection.FractionValue` | src/slides/extract.ts:229 | The digits after the point are worth less than one. |
| `SceneDetection.DecimalAt` | src/slides/extract.ts:227-229 | The number `\d+\.?\d*` reads as is never negative. |
| `SceneDetection.FindPtsTime` | src/slides/extract.ts:227 | The regex match is the first position where `pts_time:` is followed by a digit, and there is none when no such position exists. |
| `SceneDetection.ParseShowinfoTimestamp` | src/slides/extract.ts:225-232 | A line without `showinfo` gives nothing. A value is returned exactly when the line has `showinfo` and a `pts_time:` followed by a digit. The value is the non-negative number after the first such `pts_time:`. |
| `SceneDetection.IntegerValueOfNatToString` | src/slides/extract.ts:229 | A whole number written in decimal reads back as itself. |
| `SceneDetection.FindPtsTimeAfter` | src/slides/extract.ts:227 | Text without `p` before a match shifts the first match by its length. |
| `SceneDetection.DecimalOfDigits` | src/slides/extract.ts:229 | A numeral without a point reads as its integer value. |
| `SceneDetection.DigitPrefixOfDigits` | src/slides/extract.ts:227 | A string of digits is its own digit prefix. |
| `SceneDetection.ShowinfoRoundTrip` | src/slides/extract.ts:225-232 | `showinfo pts_time:<n>` parses back to `n`. |
| `SceneDetection.SegmentCount` | src/slides/extract.ts:832-833 | There are between 1 and 16 segments, and either enough for a minute each or as many as the workers. |
| `SceneDetection.Segments` | src/slides/extract.ts:825-843 | There are between 1 and 16 segments. |
| `SceneDetection.BuildSegments` | src/slides/extract.ts:825-843 | The push loop equals the specification `Segments`. |
| `SceneDetection.SegmentsCount` | src/slides/extract.ts:832-833 | With a positive duration and more than one worker, there are `min(clamped workers, ceil(d / 60))` segments. |
| `SceneDetection.SegmentsContiguous` | src/slides/extract.ts:836-841 | The first segment starts at 0, and each segment starts where the previous one ends. |
| `SceneDetection.SegmentsEndAtDuration` | src/slides/extract.ts:834-841 | The last segment ends exactly at the duration, and all segments have the same length. |
| `SceneDetection.SegmentsAtMostAMinute` | src/slides/extract.ts:832-834 | When the worker count does not limit the split, no segment is longer than a minute. |
| `SceneDetection.SegmentTimestamps` | src/slides/extract.ts:961-964 | Each timestamp a segment yields is offset by the segment's start, so it is at or after it. |
| `SceneDetection.UsedSegments` | src/slides/extract.ts:933-934 | An empty segment list becomes one whole-input segment. |
| `SceneDetection.DetectSceneTimestamps` | src/slides/extract.ts:912-973 | The method equals the specification `DetectSpec`: the first task error, or every segment's timestamps flattened and sorted ascending. |
| `SceneDetection.DetectTaskAtLeastStart` | src/slides/extract.ts:937-967 | A detection task yields timestamps only at or after its segment's start. |
| `SceneDetection.CollectAllAtLeast` | src/slides/extract.ts:969 | Lower bounds of every task carry over to the collected results. |
| `SceneDetection.SortKeepsAtLeast` | src/slides/extract.ts:971 | Sorting keeps every lower bound. |
| `SceneDetection.DetectNonNegative` | src/slides/extract.ts:912-973 | When every segment starts at 0 or later, no detected timestamp is negative. |
| `SceneDetection.FlattenAllAtLeast` | src/slides/extract.ts:970 | Flattening keeps lower bounds. |
| `SceneDetection.RetryThreshold` | src/slides/extract.ts:889 | The retry threshold is never below the floor. |
| `SceneDetection.Confidence` | src/slides/extract.ts:908 | The confidence lies in [0, 1]. It is 0 for no timestamps and 1 from `max(1, target)` timestamps on. |
| `SceneDetection.DetectSceneTimestampsAdaptive` | src/slides/extract.ts:845-910 | The method equals the specification `Adaptive`. `Scene detection did not find any candidate slide changes.` is appended exactly when the chosen run is empty. |
| `SceneDetection.NoRetryUsesBaseOnly` | src/slides/extract.ts:888 | Unless the count is below the target, the threshold above the floor, and the retry threshold different, the result depends on the base run alone. |
| `SceneDetection.RetryChosenIffStrictlyMore` | src/slides/extract.ts:888-902 | When both runs succeed, the retry is chosen exactly when it finds strictly more timestamps. A tie keeps the base run, and the count never drops. |
| `SceneDetection.HalfRoundedIsBelow` | src/slides/extract.ts:821-823 | Half a threshold above 0.01, rounded to hundredths, is strictly below it. |
| `SceneDetection.RetryStrictlyLower` | src/slides/extract.ts:889-890 | With the floor 0.05, every threshold above the floor retries strictly lower and still at or above the floor. So the `retryThreshold !== chosen` guard never fails. |
| `SceneDetection.ExampleRetryAtHalfThreshold` | src/slides/extract.ts:885-909 | Example: 2 scenes at 0.3 and 6 at 0.15, with a target of 5, select 0.15 with 6 timestamps and confidence 1. |
| `SlidePipeline.InitialAutoTune` | src/slides/extract.ts:358-375 | The first record is enabled, with strategy `adaptive`, exactly when auto-tuning is on and the retry moved the threshold. Otherwise it is disabled with strategy `none`. Either way it holds the chosen threshold and the base confidence, and no box. |
| `SlidePipeline.TryRoi` | src/slides/extract.ts:377-418 | The region-of-interest branch equals the specification `RoiTune`. |
| `SlidePipeline.AutoTuneScenes` | src/slides/extract.ts:345-424 | The threshold choice equals the specification `Tune`. |
| `SlidePipeline.AutoTuneOff` | src/slides/extract.ts:358-424 | With auto-tuning off, the refiner is never consulted. The record is disabled, with strategy `none` and no box, yet it keeps the threshold the retry chose. Only the controller's warning is added. |
| `SlidePipeline.RoiAdoptedIff` | src/slides/extract.ts:358-418 | The strategy is `llm-roi` exactly when the cropped run was made and gained at least 0.05 confidence. It then records that run's threshold, confidence and the box. Otherwise the base run's threshold and timestamps stand, and the strategy is `adaptive` exactly when auto-tuning is on and the threshold moved. |
| `SlidePipeline.TunedChoice` | src/slides/extract.ts:345-424 | By cases: when the cropped run is adopted, the choice is its threshold, timestamps and `llm-roi` record. Otherwise the base run's threshold and timestamps and its auto-tune record stand. A box is added only when the refiner was consulted, and it is the box the refiner returned. |
| `SlidePipeline.RoiTuneChoice` | src/slides/extract.ts:377-418 | The cropped run is adopted exactly when a box was found, the crop resolves, the run succeeds and it gains at least the margin. Otherwise the choice so far is kept, apart from possibly recording the box. |
| `SlidePipeline.RecordedRoiIsDetected` | src/slides/extract.ts:377-418 | A box is recorded only when auto-tuning found no scene and the refiner returned that box. The box is acceptable. |
| `SlidePipeline.AutoTunedWarningIff` | src/slides/extract.ts:420-424 | Exactly one `Auto-tuned scene threshold ...` warning, with both thresholds and the scene count, is appended when auto-tuning is on and the chosen threshold differs from the base one. Otherwise none is appended. |
| `SlidePipeline.TuneBeforeWarningNoAutoTuned` | src/slides/extract.ts:345-418 | No warning before that point is an auto-tune warning. |
| `SlidePipeline.RoiTuneNoAutoTuned` | src/slides/extract.ts:377-418 | The region-of-interest step adds no `Auto-tuned scene detection` warning. |
| `SlidePipeline.RoiTuneWarnings` | src/slides/extract.ts:377-418 | The region-of-interest step adds the refiner's warnings, then at most the cropped run's empty-scene warning. |
| `SlidePipeline.DetectRoiNoAutoTuned` | src/slides/extract.ts:527-577 | The refiner adds no auto-tune warning. |
| `SlidePipeline.InferNoAutoTuned` | src/slides/extract.ts:622-665 | The attempt loop adds no auto-tune warning. |
| `SlidePipeline.AttemptWarningsNoAutoTuned` | src/slides/extract.ts:731-736 | A failed model call adds no auto-tune warning. |
| `SlidePipeline.Times` | src/slides/extract.ts:437 | The timestamps of the capped slides, in order. |
| `SlidePipeline.SlidesFromTimestamps` | src/slides/extract.ts:426-449 | The tail equals the specification `Finish`: merge, cap, grab the frames, then the min-duration filter, with their warnings in that order. |
| `SlidePipeline.ExtractSlidesWithFfmpeg` | src/slides/extract.ts:303-450 | The whole extraction equals the specification `Run`, with every warning appended in order. |
| `SlidePipeline.FinishIndexed` | src/slides/extract.ts:426-449 | The built slides are indexed `1..N`, never more than a positive `maxSlides`, and each is a frame file in the output directory. |
| `SlidePipeline.RunSlidesIndexed` | src/slides/extract.ts:303-450 | A successful run yields slides indexed `1..N`, at most a positive `maxSlides` of them, each a frame file in the output directory. |
| `SlideSources.WorkersSetting` | src/slides/extract.ts:39 | `SUMMARIZE_SLIDES_WORKERS` wins whenever it is set, even when empty. The setting is absent exactly when neither variable is set. |
| `SlideSources.ResolveSlidesWorkers` | src/slides/extract.ts:38-44 | The worker count lies in 1..16. An unset or empty setting, a non-finite value or a non-positive value gives 8. Otherwise it is the value, rounded and clamped to 1..16. |
| `SlideSources.WorkersPrimaryShadows` | src/slides/extract.ts:39-40 | Once `SUMMARIZE_SLIDES_WORKERS` is set, `SLIDES_WORKERS` does not matter. An empty value gives the default. |
| `SlideSources.WorkersInRangeKept` | src/slides/extract.ts:38-44 | A whole number from 1 to 16 is taken as it is. |
| `SlideSources.AlnumSuffixLength` | src/slides/extract.ts:1357 | The longest suffix of letters and digits. |
| `SlideSources.StripExtension` | src/slides/extract.ts:1357 | Removing the extension leaves the name, or the part before one of its dots. |
| `SlideSources.SkipNonSlug` | src/slides/extract.ts:1360 | Skipping non-slug characters leaves a suffix starting with a slug character, or nothing. |
| `SlideSources.Dashify` | src/slides/extract.ts:1360 | The result holds only `[a-z0-9]` and `-`, never two dashes in a row. It is empty exactly for empty input. |
| `SlideSources.TrimLeadingDashes` | src/slides/extract.ts:1361 | Only leading dashes are removed, and all of them. |
| `SlideSources.TrimTrailingDashes` | src/slides/extract.ts:1361 | Only trailing dashes are removed, and all of them. |
| `SlideSources.Slugify` | src/slides/extract.ts:1358-1361 | The result is a slug: lower-case letters and digits, with single dashes only between them. |
| `SlideSources.DashifySlugChars` | src/slides/extract.ts:1360 | Text that is already slug characters and single dashes is unchanged. |
| `SlideSources.LowerSlug` | src/slides/extract.ts:1359 | Lower-casing leaves slug characters unchanged. |
| `SlideSources.SlugifyIdempotent` | src/slides/extract.ts:1358-1361 | Slugs are exactly the fixed points of slug construction, so slugifying twice changes nothing. |
| `SlideSources.Basename` | src/slides/extract.ts:1356 | The base name contains no `/`. |
| `SlideSources.TrimTrailingSlashes` | src/slides/extract.ts:1356 | Removing trailing slashes never lengthens the path. |
| `SlideSources.ShortHash` | src/slides/extract.ts:1362 | The hash part is the first eight hex digits of the digest. |
| `SlideSources.SourceBaseName` | src/slides/extract.ts:1356-1357 | The base name is never empty: it falls back to `video`. |
| `SlideSources.VideoIsSlug` | src/slides/extract.ts:1363 | `video` is itself a slug. |
| `SlideSources.DirectSourceIdShape` | src/slides/extract.ts:1348-1364 | The id is the slug of the base name, or `video` when that slug is empty, then `-`, then the short hash of the whole URL. The part before the hash is never empty and is always a slug. |
| `SlideSources.StripExtensionOfDottedName` | src/slides/extract.ts:1357 | `Intro.Talk.MP4` loses only `.MP4`. |
| `SlideSources.StripDotExtension` | src/slides/extract.ts:1357 | A final dot followed by a non-empty run of letters and digits is removed together with the run, whatever precedes the dot. |
| `SlideSources.StripExtensionEdges` | src/slides/extract.ts:1357 | `clip` is kept, `.mp4` leaves nothing, and `archive.` is kept. |
| `SlideSources.OrElse` | src/slides/extract.ts:72-75 | `a ?? b` is `a` when present, and `b` otherwise. |
| `SlideSources.ResolveSlideSource` | src/slides/extract.ts:65-106 | A YouTube id found for the video URL, the page URL or the input URL wins, with the watch URL. Otherwise a direct media source gets the normalized URL and its slug id. A YouTube result always has a non-empty id and its watch URL. The result is null exactly when none of the three branches applies. |
| `SlideSources.FallbackUnreachable` | src/slides/extract.ts:94-103 | The last branch can never apply while the id extractor never answers an empty id. |
| `SlideSources.FallbackNeedsEmptyId` | src/slides/extract.ts:72-103 | With an extractor that answers `""` for the page URL, the last branch is live and returns the input URL's id. |
| `Text.ToAsciiUpper` | packages/core/src/content/transcript/parse.ts:7 | `toUpperCase` on ASCII letters maps each character on its own, with the length kept. |
| `Text.ToAsciiLower` | src/slides/extract.ts:1359 | `toLowerCase` on ASCII letters maps each character on its own, with the length kept. |
| `Text.Trim` | packages/core/src/content/transcript/parse.ts:5 | `trim()` has no whitespace at either end, never lengthens the text, and is empty exactly for all-whitespace text. |
| `Text.TrimAll` | packages/core/src/content/transcript/parse.ts:5 | `map((line) => line.trim())` trims every line in place. |
| `Text.Split` | packages/core/src/content/transcript/parse.ts:4 | `split('\n')` gives at least one piece, and no piece holds the separator. |
| `Text.SplitJoin` | packages/core/src/content/transcript/parse.ts:11 | Joining pieces without the separator and splitting again gives the pieces back. |
| `Text.JoinSplit` | packages/core/src/content/transcript/parse.ts:4 | Splitting and joining again gives the string back. |
| `Text.JoinTrimmed` | packages/core/src/content/transcript/parse.ts:11 | Joining trimmed non-empty pieces gives a trimmed string, so the final `trim()` changes nothing. The join is empty exactly for no pieces. |
| `Text.ReplaceCrLf` | packages/core/src/content/transcript/parse.ts:3 | Replacing CRLF never lengthens the text, leaves a text without carriage returns unchanged, and keeps the number of line feeds. |
| `Text.NatToString` | src/slides/extract.ts:470 | `String(n)` is digits without a leading zero, and one digit exactly below 10. |
| `Text.PadStart` | src/slides/extract.ts:470 | `padStart` ends with the text and fills up to the width with the pad character. |
| `Seqs.Filter` | packages/core/src/content/transcript/parse.ts:6-10 | `filter` keeps exactly the elements that pass, and only input elements. |
| `Seqs.FilterIsSubsequence` | packages/core/src/content/transcript/parse.ts:6-10 | `filter` keeps the input order. |
| `Seqs.SortBy` | src/slides/extract.ts:1119 | The numeric `sort` gives an ordered permutation of its input. |
| `Seqs.SortBySorted` | src/slides/extract.ts:494 | Sorting an already ordered list changes nothing. |
| `Seqs.SortByHead` | src/slides/extract.ts:293 | The stable sort puts first the first input element with the smallest key: no element has a smaller key and every earlier element has a strictly larger one. |
| `Seqs.SortedUnique` | src/slides/extract.ts:1119 | Two ascending orderings of the same numbers are equal. |
| `TranscriptText.WhitespaceRun` | packages/core/src/content/transcript/parse.ts:8 | The run that `\s+` matches at the front. |
| `TranscriptText.VttLinesProperties` | packages/core/src/content/transcript/parse.ts:2-10 | Every kept line is trimmed, has no newline, and passes all five filters:<br>- it is not empty;<br>- it is not `WEBVTT` in any case;<br>- it is not an `HH:MM:SS.mmm --> HH:MM:SS.mmm` cue timing;<br>- it is not all digits;<br>- it is not a NOTE/STYLE/REGION header.<br>Every input line that passes them is kept, and the kept lines keep their input order. |
| `TranscriptText.VttToPlainTextLines` | packages/core/src/content/transcript/parse.ts:11 | The output is the kept lines joined by newlines, and the final trim changes nothing. It is empty exactly when no line is kept. Splitting it at newlines gives the kept lines back. |
| `TranscriptText.PlainTextIsJoin` | packages/core/src/content/transcript/parse.ts:11 | The final trim leaves the joined kept lines unchanged, and the result is empty exactly when no line is kept. |
| `TranscriptText.KeptLinesShape` | packages/core/src/content/transcript/parse.ts:3-11 | Every kept line is non-empty, trimmed and free of newlines. |
| `TranscriptText.PlainStartKept` | packages/core/src/content/transcript/parse.ts:6-10 | A line starting with a character that is not a digit and not N, S or R (in either case), and that is not 6 characters long, is kept. |
| `TranscriptText.HeaderWithTitleKept` | packages/core/src/content/transcript/parse.ts:7 | A header with trailing text, such as `WEBVTT - x`, is kept. |
| `TranscriptText.BareHeaderDropped` | packages/core/src/content/transcript/parse.ts:7 | `WEBVTT` is dropped in any case. |
| `TranscriptText.CueWithHoursDropped` | packages/core/src/content/transcript/parse.ts:8 | A line starting `HH:MM:SS.mmm --> HH:MM:SS.mmm` is dropped. |
| `TranscriptText.CueWithoutHoursKept` | packages/core/src/content/transcript/parse.ts:8 | A cue timing without hours (`MM:SS.mmm --> ...`) is kept in the text. |
| `TranscriptText.BlockHeaderExamples` | packages/core/src/content/transcript/parse.ts:10 | `NOTE this is a comment` and `Style` are block headers, but `Notebook` is not. |
| `TranscriptText.RowTexts` | packages/core/src/content/transcript/parse.ts:16-18 | There are at most as many texts as rows. |
| `TranscriptText.RowTextsMembers` | packages/core/src/content/transcript/parse.ts:16-18 | The collected texts are exactly the string `text` fields of object rows. |
| `TranscriptText.JsonTranscriptToPlainText` | packages/core/src/content/transcript/parse.ts:14-45 | A result is never the empty string and is always trimmed. A payload that is neither an array nor an object gives null. |
| `TranscriptText.RowPartsTrimmed` | packages/core/src/content/transcript/parse.ts:19-20 | Every kept part is trimmed and non-empty. |
| `TranscriptText.RowPartsMembers` | packages/core/src/content/transcript/parse.ts:16-20 | The kept parts are exactly the non-blank string `text` fields, trimmed. |
| `TranscriptText.JoinedRowsProperties` | packages/core/src/content/transcript/parse.ts:15-23 | An array gives null exactly when no row has a non-blank string `text`. Otherwise it gives those texts, trimmed and joined by newlines, in row order. |
| `TranscriptText.ObjectPrecedence` | packages/core/src/content/transcript/parse.ts:25-41 | A non-blank `transcript` wins. Then a non-blank `text` wins. Then a `segments` array is read like an array payload. Otherwise the result is null. |
| `TranscriptText.RowWithoutTextSkipped` | packages/core/src/content/transcript/parse.ts:17-18 | A row that is no object, or whose `text` is not a string, is skipped. |
| `TranscriptText.BlankRowSkipped` | packages/core/src/content/transcript/parse.ts:19-20 | A row with blank text is skipped. |
| `ExtensionExtract.ClampText` | apps/chrome-extension/src/entrypoints/extract.content.ts:22-26 | Text no longer than `maxChars` is returned unchanged, not truncated. Longer text becomes its prefix of length `max(0, maxChars - 24)` followed by `\n\n[TRUNCATED]`, truncated. |
| `ExtensionExtract.ClampTextLength` | apps/chrome-extension/src/entrypoints/extract.content.ts:24-25 | Cut text starts with the input's prefix and ends with the marker. Its length is `max(0, maxChars - 24) + 13`, so with `maxChars >= 24` it is `maxChars - 11`, within the limit. |
| `ExtensionExtract.ClampTextSmallLimit` | apps/chrome-extension/src/entrypoints/extract.content.ts:24-25 | Below 13 the marker alone exceeds the limit: 20 characters clamped to 5 come back as 13 characters. |
| `ExtensionExtract.ClampTextNonEmpty` | apps/chrome-extension/src/entrypoints/extract.content.ts:22-26 | Clamping never empties non-empty text. |
| `ExtensionExtract.TrimmedOr` | apps/chrome-extension/src/entrypoints/extract.content.ts:55 | The trimmed optional text when it is non-empty, and the fallback otherwise. |
| `ExtensionExtract.RawText` | apps/chrome-extension/src/entrypoints/extract.content.ts:55 | The readable text is empty or trimmed. |
| `ExtensionExtract.Extract` | apps/chrome-extension/src/entrypoints/extract.content.ts:46-79 | With readable text, the answer is a success carrying the clamped text. |
| `ExtensionExtract.EmptyTextDecision` | apps/chrome-extension/src/entrypoints/extract.content.ts:56-69 | With no readable text, the answer is a success exactly when there is a non-zero media duration or a video, audio or caption element. That success has empty, untruncated text. Otherwise the answer is the error `No readable text found.` |
| `ExtensionExtract.ExtractTextIff` | apps/chrome-extension/src/entrypoints/extract.content.ts:56-79 | A success has empty text exactly when the page had no readable text. It is truncated exactly when there was text longer than `maxChars`. |
| `ExtensionExtract.ExtractTitle` | apps/chrome-extension/src/entrypoints/extract.content.ts:49-78 | A success keeps the page's URL, media duration and media flags. Its title is:<br>- `document.title` for a media-only page;<br>- otherwise the trimmed Readability title when that is non-empty;<br>- otherwise `document.title`.<br>An empty title becomes null. |

## Left out

- Process lifecycle: spawning, timeouts and `SIGKILL`, exit codes and the error messages built
  from them, and the argument vectors of ffmpeg, ffprobe, yt-dlp and tesseract. The tools are
  oracle parameters. `runProcess` contributes only its stderr line buffer.
- Concurrency: `runWithConcurrency` is modelled as one sequential loop over the shared cursor.
  Interleavings of real workers, and a failure that only rejects `Promise.all` while other
  workers keep running, are not modelled. Because the loop is sequential, a failing run's error
  is always the first failing task's error.
- The LLM call (`generateTextWithModelId`), the prompt of `buildRoiPrompt`, `JSON.parse`, the
  `{...}` regex of `parseSlideRoi`, `fs.readFile` of the frame and the chat-completions
  switches. The answer to each (attempt, frame) pair is an oracle: a thrown error or a text
  with its parsed record.
- File-system effects: `fs.rm`, `mkdtemp`, cleanup, `writeSlidesJson`, and
  `renameSlidesWithTimestamps`, whose `toFixed(2)` file names are not modelled. Directory
  listings and `stat` results are values, and the paths the filters remove are returned.
- `extractSlidesForSource`: binary lookup, the yt-dlp download call and the `ocr` switch are
  orchestration around I/O. Its pieces are modelled separately: the workers, the download
  choice, `prepareSlidesDir`, the ffmpeg stage and the OCR stage.
- `resolveSlidesYtDlpFormat` is a `??` chain over two environment variables plus a `trim`. It is
  not modelled.
- Logging and timing: `logSlides`, `logSlidesTiming` and `Date.now`.
- Floating point: numbers are reals. `NaN` and the infinities are not modelled, and
  `Number.isFinite` filters become the identity. `Number()` on strings is an oracle
  (`NumberParser`), and the probed durations arrive as finite reals.
- The rendering of non-integer numbers inside warning texts (`${threshold}`) is the parameter
  `showNumber` of `Diagnostics.Message`.
- Unicode: `toUpperCase`/`toLowerCase` are modelled on ASCII letters only, so `ı`, `ſ` and the
  Kelvin sign are not case-mapped. Lengths count characters, not UTF-16 code units, and
  `Array.from(text)` in `estimateOcrConfidence` is treated the same as `text.length`.
- `path.join` and `path.basename` are modelled for plain names only (`dir + "/" + name`, and the
  last `/`-separated piece). Normalisation of `..` and of repeated slashes is not modelled.
- `new URL(url).pathname`, sha1, `extractYouTubeVideoId`, `isDirectMediaUrl` and `isYouTubeUrl`
  are oracles. `extracted.video.url` is taken to be a string.
- `SlideSources.SkipNonSlug`: states only that it returns a suffix starting with a slug
  character, not that every character it skips is a non-slug character.
- `SlideFilters.ApplyMinDurationFilter`: the removed paths are stated by count and origin
  only, not as the exact list of dropped slides.
- `results.filter(Boolean)` in `extractFramesAtTimestamps` is treated as the identity, since
  every task returns a record.
- `extractSlidesWithFfmpeg` takes the prober's output as an input, rather than running the
  prober.
- `resolveCropFromRoi` does not guarantee a crop at least 16 pixels wide or high once clamping
  happens near the right or bottom edge (`RoiRefiner.CropNearEdgeIsNarrow`). The model keeps
  that behaviour.
- `buildRoiSampleTimestamps` yields negative sample times for clips shorter than 0.1 s
  (`RoiRefiner.ShortClipSamplesBeforeStart`). The model keeps that behaviour.
- The `lastRoi` fallback of `inferSlideRoiFromFrames` is dead code (`RoiRefiner.TryAttempt`),
  and so is the `retryThreshold !== chosen` guard when the floor is 0.05
  (`SceneDetection.RetryStrictlyLower`). Both are modelled as written.
- The last branch of `resolveSlideSource` can return only when the id extractor answers an
  empty id (`SlideSources.FallbackUnreachable`).
- `clampText` with `maxChars < 13` returns text longer than `maxChars`
  (`ExtensionExtract.ClampTextSmallLimit`). The model keeps that behaviour.
- Content script: the DOM reads (Readability, `document.body.innerText`, the media-duration
  probe, the media element queries) are inputs. The `try`/`catch` around them and the
  message-listener plumbing are not modelled. A `NaN` media duration, which is falsy in
  JavaScript, is not modelled.
- The UI streaming code, the CLI wiring and the other non-core files are not part of this
  model.
