/**
 * Reading duration and frame size from the prober's parsed JSON (`probeVideoInfo`).
 * Running the prober and `JSON.parse` are outside the model: the input is the parsed stream list.
 */
module Probe {
  import opened Wrappers

  /**
   * One entry of `streams`: whether `codec_type` is `video`, `Number(duration)` when that is
   * finite, and `width`/`height` when they are numbers.
   */
  datatype Stream = Stream(isVideo: bool, duration: Option<real>, width: Option<nat>, height: Option<nat>)

  /** What the prober produced: no binary found, a failed run or unparsable output, or the parsed document. */
  datatype ProbeOutput =
    | NoProber
    | ProbeFailed
    | Parsed(streams: seq<Stream>, formatDuration: Option<real>)

  datatype VideoInfo = VideoInfo(durationSeconds: Option<real>, width: Option<nat>, height: Option<nat>)

  const UnknownVideo := VideoInfo(None, None, None)

  predicate HasPositiveDuration(s: Stream) {
    s.isVideo && s.duration.Some? && s.duration.value > 0.0
  }

  /** The duration of the last video stream that has a positive one. */
  function LastVideoDuration(streams: seq<Stream>): (d: Option<real>)
    ensures d.Some? ==> d.value > 0.0
  {
    if streams == [] then None
    else if HasPositiveDuration(Last(streams)) then Last(streams).duration
    else LastVideoDuration(streams[..|streams| - 1])
  }

  /** The width of the first video stream that carries one. */
  function FirstVideoWidth(streams: seq<Stream>): Option<nat>
  {
    if streams == [] then None
    else
      var earlier := FirstVideoWidth(streams[..|streams| - 1]);
      if earlier.Some? then earlier
      else if Last(streams).isVideo then Last(streams).width
      else None
  }

  /** The height of the first video stream that carries one. */
  function FirstVideoHeight(streams: seq<Stream>): Option<nat>
  {
    if streams == [] then None
    else
      var earlier := FirstVideoHeight(streams[..|streams| - 1]);
      if earlier.Some? then earlier
      else if Last(streams).isVideo then Last(streams).height
      else None
  }

  function Last<T>(s: seq<T>): T
    requires |s| > 0
  {
    s[|s| - 1]
  }

  /** What `probeVideoInfo` reports for a prober output. */
  function ProbedInfo(output: ProbeOutput): (info: VideoInfo)
    ensures info.durationSeconds.Some? ==> info.durationSeconds.value > 0.0
  {
    if !output.Parsed? then UnknownVideo
    else
      var d := LastVideoDuration(output.streams);
      VideoInfo(
        if d.Some? then d
        else if output.formatDuration.Some? && output.formatDuration.value > 0.0 then output.formatDuration
        else None,
        FirstVideoWidth(output.streams),
        FirstVideoHeight(output.streams))
  }

  /**
   * `probeVideoInfo`: a loop over the streams that keeps the first width and height it sees
   * and overwrites the duration with every positive one; the container duration is the fallback.
   * Any failure gives all-unknown information instead of an error.
   */
  method ProbeVideoInfo(output: ProbeOutput) returns (info: VideoInfo)
    ensures info == ProbedInfo(output)
    ensures !output.Parsed? ==> info == UnknownVideo
    ensures output.Parsed? ==>
              && info.width == FirstVideoWidth(output.streams)
              && info.height == FirstVideoHeight(output.streams)
              && info.durationSeconds ==
                   if LastVideoDuration(output.streams).Some? then LastVideoDuration(output.streams)
                   else if output.formatDuration.Some? && output.formatDuration.value > 0.0 then output.formatDuration
                   else None
  {
    if !output.Parsed? {
      return UnknownVideo;
    }
    var streams := output.streams;
    var durationSeconds: Option<real> := None;
    var width: Option<nat> := None;
    var height: Option<nat> := None;
    for i := 0 to |streams|
      invariant durationSeconds == LastVideoDuration(streams[..i])
      invariant width == FirstVideoWidth(streams[..i])
      invariant height == FirstVideoHeight(streams[..i])
    {
      var stream := streams[i];
      assert streams[..i + 1][..i] == streams[..i];
      if stream.isVideo {
        if width.None? && stream.width.Some? { width := stream.width; }
        if height.None? && stream.height.Some? { height := stream.height; }
        if stream.duration.Some? && stream.duration.value > 0.0 { durationSeconds := stream.duration; }
      }
    }
    assert streams[..|streams|] == streams;
    if durationSeconds.None? {
      if output.formatDuration.Some? && output.formatDuration.value > 0.0 {
        durationSeconds := output.formatDuration;
      }
    }
    info := VideoInfo(durationSeconds, width, height);
  }

  /** A width comes from a video stream, and no video stream before it had one. */
  lemma {:induction false} FirstVideoWidthIsFirst(streams: seq<Stream>)
    requires FirstVideoWidth(streams).Some?
    ensures exists i :: 0 <= i < |streams| && streams[i].isVideo && streams[i].width == FirstVideoWidth(streams)
              && forall j :: 0 <= j < i && streams[j].isVideo ==> streams[j].width.None?
  {
    var front := streams[..|streams| - 1];
    if FirstVideoWidth(front).Some? {
      FirstVideoWidthIsFirst(front);
      var i :| 0 <= i < |front| && front[i].isVideo && front[i].width == FirstVideoWidth(front)
                && forall j :: 0 <= j < i && front[j].isVideo ==> front[j].width.None?;
      assert streams[i] == front[i];
    } else {
      NoVideoWidth(front);
      assert forall j :: 0 <= j < |front| ==> streams[j] == front[j];
    }
  }

  lemma {:induction false} NoVideoWidth(streams: seq<Stream>)
    requires FirstVideoWidth(streams).None?
    ensures forall j :: 0 <= j < |streams| && streams[j].isVideo ==> streams[j].width.None?
  {
    if streams != [] {
      var front := streams[..|streams| - 1];
      NoVideoWidth(front);
      assert forall j :: 0 <= j < |front| ==> streams[j] == front[j];
    }
  }

  /** A stream duration comes from a video stream after which no video stream has a positive duration. */
  lemma {:induction false} LastVideoDurationIsLast(streams: seq<Stream>)
    requires LastVideoDuration(streams).Some?
    ensures exists i :: 0 <= i < |streams| && HasPositiveDuration(streams[i])
              && streams[i].duration == LastVideoDuration(streams)
              && forall j :: i < j < |streams| ==> !HasPositiveDuration(streams[j])
  {
    if !HasPositiveDuration(Last(streams)) {
      var front := streams[..|streams| - 1];
      LastVideoDurationIsLast(front);
      var i :| 0 <= i < |front| && HasPositiveDuration(front[i]) && front[i].duration == LastVideoDuration(front)
                && forall j :: i < j < |front| ==> !HasPositiveDuration(front[j]);
      assert streams[i] == front[i];
      assert forall j :: i < j < |front| ==> streams[j] == front[j];
    }
  }
}
