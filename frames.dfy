/**
 * `extractFramesAtTimestamps`: one frame-grab task per timestamp through the bounded executor,
 * each writing `slide_NNNN.png` for its 1-based position; the slides come back ordered by index.
 */
module FrameExtraction {
  import opened Wrappers
  import opened Seqs
  import opened SlideTypes
  import opened SlideFiles
  import opened Executor

  /**
   * The frame grab (`ffmpeg -ss <t> ... -vframes 1 <path>`), as an oracle from a time and an
   * output path to the error it fails with, if any.
   */
  type FrameWriter = (real, string) -> Option<string>

  /** Where the frame for the slide with 1-based index `index` is written. */
  function FramePath(outputDir: string, index: nat): string {
    JoinPath(outputDir, SlideFileName(index))
  }

  /** The record the task for position `i` returns once its frame is written. */
  function FrameSlide(outputDir: string, timestamps: seq<real>, i: nat): (s: SlideImage)
    requires i < |timestamps|
    ensures s.index == i + 1 && s.timestamp == timestamps[i]
  {
    SlideImage(i + 1, timestamps[i], FramePath(outputDir, i + 1), None, None)
  }

  /** The grab for position `i`: the error it fails with, if any. */
  function Grab(write: FrameWriter, outputDir: string, timestamps: seq<real>, i: nat): Option<string>
    requires i < |timestamps|
  {
    write(timestamps[i], FramePath(outputDir, i + 1))
  }

  /** The task for position `i`: write the frame, then return its record. */
  function FrameTask(write: FrameWriter, outputDir: string, timestamps: seq<real>, i: nat): Result<SlideImage, string>
    requires i < |timestamps|
  {
    match Grab(write, outputDir, timestamps, i)
    case Some(e) => Failure(e)
    case None => Success(FrameSlide(outputDir, timestamps, i))
  }

  function FrameTasks(write: FrameWriter, outputDir: string, timestamps: seq<real>): seq<() -> Result<SlideImage, string>> {
    seq(|timestamps|, i requires 0 <= i < |timestamps| => () => FrameTask(write, outputDir, timestamps, i))
  }

  function IndexKey(s: SlideImage): real {
    s.index as real
  }

  /** What the extraction returns: the first task error, or the slides sorted by index. */
  function ExtractedFrames(write: FrameWriter, outputDir: string, timestamps: seq<real>): Result<seq<SlideImage>, string> {
    match Collect(Outcomes(FrameTasks(write, outputDir, timestamps)))
    case Failure(e) => Failure(e)
    case Success(results) => Success(SortBy(results, IndexKey))
  }

  /**
   * `extractFramesAtTimestamps`: run the tasks, keep the (always present) results, sort them by
   * index and copy them into the returned list.
   */
  method ExtractFramesAtTimestamps(write: FrameWriter, outputDir: string, timestamps: seq<real>, workers: int)
    returns (r: Result<seq<SlideImage>, string>)
    ensures r == ExtractedFrames(write, outputDir, timestamps)
  {
    var tasks := FrameTasks(write, outputDir, timestamps);
    var outcome, _, _ := RunWithConcurrency(tasks, workers);
    assert outcome == Collect(Outcomes(FrameTasks(write, outputDir, timestamps)));
    if outcome.Failure? {
      return Failure(outcome.error);
    }
    var ordered := SortBy(outcome.value, IndexKey);
    assert ExtractedFrames(write, outputDir, timestamps) == Success(ordered);
    var slides: seq<SlideImage> := [];
    for k := 0 to |ordered|
      invariant slides == ordered[..k]
    {
      slides := slides + [ordered[k]];
    }
    assert ordered[..|ordered|] == ordered;
    r := Success(slides);
  }

  /** The outcome of each task is the frame record, or the error of its grab. */
  lemma FrameOutcomes(write: FrameWriter, outputDir: string, timestamps: seq<real>)
    ensures var outcomes := Outcomes(FrameTasks(write, outputDir, timestamps));
      && |outcomes| == |timestamps|
      && forall i :: 0 <= i < |timestamps| ==> outcomes[i] == FrameTask(write, outputDir, timestamps, i)
  {
  }

  /**
   * A successful extraction returns one slide per timestamp, in timestamp order: slide `i`
   * has index `i + 1`, time `timestamps[i]` and its own `slide_NNNN.png`.
   */
  lemma ExtractedFramesInOrder(write: FrameWriter, outputDir: string, timestamps: seq<real>)
    requires ExtractedFrames(write, outputDir, timestamps).Success?
    ensures var slides := ExtractedFrames(write, outputDir, timestamps).value;
      && |slides| == |timestamps|
      && forall i :: 0 <= i < |timestamps| ==> slides[i] == FrameSlide(outputDir, timestamps, i)
  {
    FrameOutcomes(write, outputDir, timestamps);
    var outcomes := Outcomes(FrameTasks(write, outputDir, timestamps));
    var results := Collect(outcomes).value;
    forall i | 0 <= i < |timestamps| ensures results[i] == FrameSlide(outputDir, timestamps, i) {
      assert outcomes[i] == Success(results[i]);
    }
    assert SortedBy(results, IndexKey);
    SortBySorted(results, IndexKey);
  }

  /**
   * The extraction succeeds exactly when every grab does; otherwise its error is that of the
   * first frame whose grab failed, all earlier grabs having succeeded.
   */
  lemma ExtractedFramesFailure(write: FrameWriter, outputDir: string, timestamps: seq<real>)
    ensures var r := ExtractedFrames(write, outputDir, timestamps);
      && (r.Success? <==> forall i :: 0 <= i < |timestamps| ==> Grab(write, outputDir, timestamps, i).None?)
      && (r.Failure? ==> exists i :: 0 <= i < |timestamps|
                                     && Grab(write, outputDir, timestamps, i) == Some(r.error)
                                     && forall j :: 0 <= j < i ==> Grab(write, outputDir, timestamps, j).None?)
  {
    FrameOutcomes(write, outputDir, timestamps);
    var outcomes := Outcomes(FrameTasks(write, outputDir, timestamps));
    var c := Collect(outcomes);
    if c.Failure? {
      var i :| 0 <= i < |outcomes| && outcomes[i] == Failure(c.error) && forall j :: 0 <= j < i ==> outcomes[j].Success?;
      assert outcomes[i] == FrameTask(write, outputDir, timestamps, i);
      assert Grab(write, outputDir, timestamps, i) == Some(c.error);
      forall j | 0 <= j < i ensures Grab(write, outputDir, timestamps, j).None? {
        assert outcomes[j] == FrameTask(write, outputDir, timestamps, j);
      }
    } else {
      forall i | 0 <= i < |timestamps| ensures Grab(write, outputDir, timestamps, i).None? {
        assert outcomes[i] == FrameTask(write, outputDir, timestamps, i);
        assert outcomes[i] == Success(c.value[i]);
      }
    }
  }

  /** No two slides of one extraction write the same file. */
  lemma FramePathsDistinct(outputDir: string, timestamps: seq<real>, i: nat, j: nat)
    requires i < j < |timestamps|
    ensures FrameSlide(outputDir, timestamps, i).imagePath != FrameSlide(outputDir, timestamps, j).imagePath
  {
    SlideFileNamesDistinct(i + 1, j + 1);
    JoinPathInjective(outputDir, SlideFileName(i + 1), SlideFileName(j + 1));
  }
}
