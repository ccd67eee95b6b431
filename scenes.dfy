/**
 * Scene-change detection: reading `pts_time:` from the detector's `showinfo` lines,
 * splitting the clip into segments that run in parallel, merging their timestamps,
 * and the single-retry adaptive threshold controller.
 */
module SceneDetection {
  import opened Wrappers
  import opened Text
  import opened Numeric
  import opened Seqs
  import opened Executor
  import opened ProcessRunner
  import opened SlideTypes
  import opened Diagnostics

  // ---------------------------------------------------------------------------------------
  // Parsing one `showinfo` line

  /** The longest prefix of ASCII digits. */
  function DigitPrefix(s: string): (r: string)
    ensures |r| <= |s| && r == s[..|r|]
    ensures forall i :: 0 <= i < |r| ==> IsAsciiDigit(r[i])
    ensures |r| < |s| ==> !IsAsciiDigit(s[|r|])
  {
    if s != [] && IsAsciiDigit(s[0]) then [s[0]] + DigitPrefix(s[1..]) else []
  }

  function DigitValue(c: char): nat
    requires IsAsciiDigit(c)
  {
    c as int - '0' as int
  }

  /** The value of a decimal numeral, most significant digit first. */
  function IntegerValue(ds: string): nat
    requires forall i :: 0 <= i < |ds| ==> IsAsciiDigit(ds[i])
  {
    if ds == [] then 0 else IntegerValue(ds[..|ds| - 1]) * 10 + DigitValue(ds[|ds| - 1])
  }

  /** The value of the digits after a decimal point. */
  function FractionValue(ds: string): (r: real)
    requires forall i :: 0 <= i < |ds| ==> IsAsciiDigit(ds[i])
    ensures 0.0 <= r < 1.0
  {
    if ds == [] then 0.0 else (DigitValue(ds[0]) as real + FractionValue(ds[1..])) / 10.0
  }

  /** `Number(m)` for the text `m` matched by `\d+\.?\d*` at the start of `s`. */
  function DecimalAt(s: string): (r: real)
    ensures r >= 0.0
  {
    var whole := DigitPrefix(s);
    var rest := s[|whole|..];
    var fraction := if rest != [] && rest[0] == '.' then DigitPrefix(rest[1..]) else [];
    IntegerValue(whole) as real + FractionValue(fraction)
  }

  const PtsTimeTag := "pts_time:"

  /** `pts_time:` followed by a digit starts at the beginning of `s`. */
  predicate PtsTimeHere(s: string) {
    StartsWith(s, PtsTimeTag) && |s| > |PtsTimeTag| && IsAsciiDigit(s[|PtsTimeTag|])
  }

  /** Where the regular expression `/pts_time:(\d+\.?\d*)/` first matches, if anywhere. */
  function FindPtsTime(s: string): (r: Option<nat>)
    ensures r.Some? ==> r.value < |s| && PtsTimeHere(s[r.value..])
    ensures r.Some? ==> forall k :: 0 <= k < r.value ==> !PtsTimeHere(s[k..])
    ensures r.None? ==> forall k :: 0 <= k <= |s| ==> !PtsTimeHere(s[k..])
  {
    if PtsTimeHere(s) then Some(0)
    else if s == [] then None
    else
      match FindPtsTime(s[1..])
      case None =>
        assert forall k :: 1 <= k <= |s| ==> s[k..] == s[1..][k - 1..];
        None
      case Some(i) =>
        assert forall k :: 1 <= k <= i + 1 ==> s[k..] == s[1..][k - 1..];
        Some(i + 1)
  }

  /**
   * `parseShowinfoTimestamp`: nothing unless the line mentions `showinfo`; otherwise the
   * number after the first `pts_time:` that is followed by a digit.
   */
  function ParseShowinfoTimestamp(line: string): (r: Option<real>)
    ensures !Contains(line, "showinfo") ==> r.None?
    ensures r.Some? ==> r.value >= 0.0
    ensures r.Some? <==> Contains(line, "showinfo") && FindPtsTime(line).Some?
    ensures r.Some? ==> r.value == DecimalAt(line[FindPtsTime(line).value + |PtsTimeTag|..])
  {
    if !Contains(line, "showinfo") then None
    else match FindPtsTime(line)
      case None => None
      case Some(i) => Some(DecimalAt(line[i + |PtsTimeTag|..]))
  }

  /** Renders a whole number the way `String(n)` does and reads it back. */
  lemma {:induction false} IntegerValueOfNatToString(n: nat)
    ensures IntegerValue(NatToString(n)) == n
  {
    if n >= 10 {
      IntegerValueOfNatToString(n / 10);
      var s := NatToString(n);
      assert s[..|s| - 1] == NatToString(n / 10);
    }
  }

  /** Text without the letter `p` before a match moves the first match by its length. */
  lemma {:induction false} FindPtsTimeAfter(prefix: string, s: string)
    requires PtsTimeHere(s)
    requires forall k :: 0 <= k < |prefix| ==> prefix[k] != 'p'
    ensures FindPtsTime(prefix + s) == Some(|prefix|)
  {
    if prefix == [] {
      assert prefix + s == s;
    } else {
      var line := prefix + s;
      assert line[0] == prefix[0] != 'p';
      assert !PtsTimeHere(line);
      assert line[1..] == prefix[1..] + s;
      FindPtsTimeAfter(prefix[1..], s);
    }
  }

  /** A numeral without a decimal point reads back as its integer value. */
  lemma DecimalOfDigits(ds: string)
    requires forall i :: 0 <= i < |ds| ==> IsAsciiDigit(ds[i])
    ensures DecimalAt(ds) == IntegerValue(ds) as real
  {
    DigitPrefixOfDigits(ds);
  }

  lemma {:induction false} DigitPrefixOfDigits(ds: string)
    requires forall i :: 0 <= i < |ds| ==> IsAsciiDigit(ds[i])
    ensures DigitPrefix(ds) == ds
  {
    if ds != [] {
      DigitPrefixOfDigits(ds[1..]);
    }
  }

  /** A whole-second timestamp written after `pts_time:` on a `showinfo` line is read back exactly. */
  lemma ShowinfoRoundTrip(n: nat)
    ensures ParseShowinfoTimestamp("showinfo " + PtsTimeTag + NatToString(n)) == Some(n as real)
  {
    var digits := NatToString(n);
    var tail := PtsTimeTag + digits;
    var line := "showinfo " + tail;
    assert line == "showinfo " + PtsTimeTag + digits;
    assert StartsWith(line, "showinfo") by { assert line[..8] == "showinfo"; }
    ContainsAt(line, "showinfo", 0);
    assert tail[..|PtsTimeTag|] == PtsTimeTag;
    assert tail[|PtsTimeTag|] == digits[0];
    FindPtsTimeAfter("showinfo ", tail);
    assert line[9 + |PtsTimeTag|..] == digits;
    DecimalOfDigits(digits);
    IntegerValueOfNatToString(n);
  }

  // ---------------------------------------------------------------------------------------
  // Segments

  datatype Segment = Segment(start: real, duration: real)

  /** `Math.min(clampedWorkers, Math.ceil(durationSeconds / 60))`. */
  function SegmentCount(durationSeconds: real, workers: int): (n: nat)
    requires durationSeconds > 0.0
    ensures 1 <= n <= 16
    ensures n as real >= durationSeconds / 60.0 || n == ClampConcurrency(workers)
  {
    MinInt(ClampConcurrency(workers), Ceil(durationSeconds / 60.0))
  }

  /** The segment list that `buildSegments` produces. */
  function Segments(durationSeconds: Option<real>, workers: int): (segs: seq<Segment>)
    ensures 1 <= |segs| <= 16
  {
    if durationSeconds.None? || durationSeconds.value <= 0.0 || workers <= 1 then
      [Segment(0.0, if durationSeconds.Some? then durationSeconds.value else 0.0)]
    else
      var d := durationSeconds.value;
      SegmentList(d, SegmentCount(d, workers))
  }

  /** `n` segments of length `d / n` one after another, the last one taking what remains of `d`. */
  function SegmentList(d: real, n: nat): (segs: seq<Segment>)
    requires n > 0
    ensures |segs| == n
  {
    var length := d / n as real;
    seq(n, i requires 0 <= i < n => Segment(i as real * length, if i == n - 1 then d - i as real * length else length))
  }

  /** `buildSegments`: a push loop over equal-length segments, the last one taking the remainder. */
  method BuildSegments(durationSeconds: Option<real>, workers: int) returns (segments: seq<Segment>)
    ensures segments == Segments(durationSeconds, workers)
  {
    if durationSeconds.None? || durationSeconds.value <= 0.0 || workers <= 1 {
      return [Segment(0.0, if durationSeconds.Some? then durationSeconds.value else 0.0)];
    }
    var d := durationSeconds.value;
    var clampedWorkers := MaxInt(1, MinInt(16, Round(workers as real)));
    var segmentCount := MinInt(clampedWorkers, Ceil(d / 60.0));
    var segmentDuration := d / segmentCount as real;
    assert Segments(durationSeconds, workers) == SegmentList(d, segmentCount);
    segments := [];
    for i := 0 to segmentCount
      invariant |segments| == i
      invariant forall k :: 0 <= k < i ==> segments[k] == SegmentList(d, segmentCount)[k]
    {
      var start := i as real * segmentDuration;
      var remaining := d - start;
      var duration := if i == segmentCount - 1 then remaining else segmentDuration;
      assert Segment(start, duration) == SegmentList(d, segmentCount)[i];
      segments := segments + [Segment(start, duration)];
    }
  }

  /** `(i + 1) * length` is one `length` past `i * length`. */
  lemma NextMultiple(i: nat, length: real)
    ensures (i + 1) as real * length == i as real * length + length
  {
  }

  /** With a known positive duration and more than one worker, there are `min(workers, ceil(d / 60))` segments. */
  lemma SegmentsCount(d: real, workers: int)
    requires d > 0.0 && workers > 1
    ensures |Segments(Some(d), workers)| == MinInt(ClampConcurrency(workers), Ceil(d / 60.0))
  {
  }

  /** Segment `i + 1` starts where segment `i` ends. */
  predicate EndsAtNext(segs: seq<Segment>, i: int)
    requires 0 <= i < |segs| - 1
  {
    segs[i + 1].start == segs[i].start + segs[i].duration
  }

  /** The segments start at 0 and each one starts where the previous one ends. */
  lemma SegmentsContiguous(d: real, workers: int)
    requires d > 0.0 && workers > 1
    ensures var segs := Segments(Some(d), workers);
      && segs[0].start == 0.0
      && forall i :: 0 <= i < |segs| - 1 ==> EndsAtNext(segs, i)
  {
    SegmentListContiguous(d, SegmentCount(d, workers));
  }

  lemma SegmentListContiguous(d: real, n: nat)
    requires n > 0
    ensures var segs := SegmentList(d, n);
      && segs[0].start == 0.0
      && forall i :: 0 <= i < n - 1 ==> EndsAtNext(segs, i)
  {
    var segs := SegmentList(d, n);
    var length := d / n as real;
    forall i | 0 <= i < n - 1 ensures EndsAtNext(segs, i) {
      assert segs[i].start == i as real * length && segs[i].duration == length;
      assert segs[i + 1].start == (i + 1) as real * length;
      NextMultiple(i, length);
    }
  }

  /** `n` shares of `d / n` make up `d`, so after `n - 1` of them one share remains. */
  lemma LastShare(d: real, n: nat)
    requires n > 0
    ensures d - (n - 1) as real * (d / n as real) == d / n as real
  {
    var length := d / n as real;
    NextMultiple(n - 1, length);
    assert n as real * length == d;
  }

  /** The last segment ends exactly at the duration, which is `n` equal lengths. */
  lemma SegmentsEndAtDuration(d: real, workers: int)
    requires d > 0.0 && workers > 1
    ensures var segs := Segments(Some(d), workers);
      && segs[|segs| - 1].start + segs[|segs| - 1].duration == d
      && forall i :: 0 <= i < |segs| ==> segs[i].duration == d / |segs| as real
  {
    SegmentListEnds(d, SegmentCount(d, workers));
  }

  lemma SegmentListEnds(d: real, n: nat)
    requires n > 0
    ensures var segs := SegmentList(d, n);
      && segs[n - 1].start + segs[n - 1].duration == d
      && forall i :: 0 <= i < n ==> segs[i].duration == d / n as real
  {
    LastShare(d, n);
  }

  lemma QuotientBound(d: real, n: real, bound: real)
    requires n > 0.0 && bound > 0.0 && n >= d / bound
    ensures d / n <= bound
  {
    assert d <= bound * n by {
      assert d == (d / bound) * bound;
    }
    assert d / n <= bound * n / n;
  }

  /** When the worker count does not limit the split, no segment is longer than a minute. */
  lemma SegmentsAtMostAMinute(d: real, workers: int)
    requires d > 0.0 && workers > 1
    requires Ceil(d / 60.0) <= ClampConcurrency(workers)
    ensures var segs := Segments(Some(d), workers);
      forall i :: 0 <= i < |segs| ==> segs[i].duration <= 60.0
  {
    var segs := Segments(Some(d), workers);
    var n := |segs|;
    SegmentsEndAtDuration(d, workers);
    assert n as real >= d / 60.0;
    QuotientBound(d, n as real, 60.0);
  }

  // ---------------------------------------------------------------------------------------
  // Running the detector over the segments

  /**
   * The frame-difference detector, as an oracle: for a threshold, an optional crop and a
   * segment it either fails with an error message or produces its standard-error text.
   */
  type Detector = (real, Option<CropRect>, Segment) -> Result<string, string>

  /** The timestamps one segment's lines yield, each shifted by the segment start. */
  function SegmentTimestamps(lines: seq<string>, start: real): (r: seq<real>)
    ensures forall k :: 0 <= k < |r| ==> r[k] >= start
  {
    if lines == [] then []
    else
      var rest := SegmentTimestamps(lines[1..], start);
      match ParseShowinfoTimestamp(lines[0])
      case Some(ts) => [ts + start] + rest
      case None => rest
  }

  /** One detection task: run the detector, feed its stderr through the line callback. */
  function DetectTask(detector: Detector, threshold: real, crop: Option<CropRect>, segment: Segment): Result<seq<real>, string>
  {
    match detector(threshold, crop, segment)
    case Failure(e) => Failure(e)
    case Success(stderr) => Success(SegmentTimestamps(AllStreamedLines(stderr), segment.start))
  }

  /** With no segments the whole input is one segment. */
  function UsedSegments(segments: seq<Segment>): (r: seq<Segment>)
    ensures |r| >= 1
  {
    if |segments| > 0 then segments else [Segment(0.0, 0.0)]
  }

  /** What `detectSceneTimestamps` computes: the first task error, or every timestamp, ascending. */
  function DetectSpec(detector: Detector, threshold: real, crop: Option<CropRect>, segments: seq<Segment>): Result<seq<real>, string>
  {
    var used := UsedSegments(segments);
    match Collect(seq(|used|, i requires 0 <= i < |used| => DetectTask(detector, threshold, crop, used[i])))
    case Failure(e) => Failure(e)
    case Success(perSegment) => Success(SortBy(Flatten(perSegment), Identity))
  }

  /** `detectSceneTimestamps`: one task per segment through the executor, then `flat()` and `sort`. */
  method DetectSceneTimestamps(detector: Detector, threshold: real, crop: Option<CropRect>, segments: seq<Segment>, workers: int)
    returns (r: Result<seq<real>, string>)
    ensures r == DetectSpec(detector, threshold, crop, segments)
  {
    var used := UsedSegments(segments);
    var concurrency := if workers > 0 then workers else 1;
    var tasks := seq(|used|, i requires 0 <= i < |used| => () => DetectTask(detector, threshold, crop, used[i]));
    var outcome, _, _ := RunWithConcurrency(tasks, concurrency);
    assert Outcomes(tasks) == seq(|used|, i requires 0 <= i < |used| => DetectTask(detector, threshold, crop, used[i]));
    match outcome {
      case Failure(e) => r := Failure(e);
      case Success(results) =>
        var merged := Flatten(results);
        r := Success(SortBy(merged, Identity));
    }
  }

  /** A successful detection task only yields timestamps at or after its segment's start. */
  lemma DetectTaskAtLeastStart(detector: Detector, threshold: real, crop: Option<CropRect>, segment: Segment)
    ensures DetectTask(detector, threshold, crop, segment).Success? ==>
              forall t :: t in DetectTask(detector, threshold, crop, segment).value ==> t >= segment.start
  {
    var r := DetectTask(detector, threshold, crop, segment);
    if r.Success? {
      forall t | t in r.value ensures t >= segment.start {
        var k :| 0 <= k < |r.value| && r.value[k] == t;
      }
    }
  }

  /** Lower bounds on every successful result carry over to what `Collect` gathers. */
  lemma CollectAllAtLeast(rs: seq<Result<seq<real>, string>>, lo: real)
    requires forall i :: 0 <= i < |rs| ==> rs[i].Success? ==> forall t :: t in rs[i].value ==> t >= lo
    ensures Collect(rs).Success? ==> forall i :: 0 <= i < |Collect(rs).value| ==> forall t :: t in Collect(rs).value[i] ==> t >= lo
  {
    var c := Collect(rs);
    if c.Success? {
      forall i | 0 <= i < |c.value| ensures forall t :: t in c.value[i] ==> t >= lo {
        assert rs[i] == Success(c.value[i]);
      }
    }
  }

  /** Sorting keeps every element's lower bound. */
  lemma SortKeepsAtLeast(s: seq<real>, lo: real)
    requires forall t :: t in s ==> t >= lo
    ensures forall k :: 0 <= k < |SortBy(s, Identity)| ==> SortBy(s, Identity)[k] >= lo
  {
    var r := SortBy(s, Identity);
    assert multiset(r) == multiset(s);
    forall k | 0 <= k < |r| ensures r[k] >= lo {
      var x := r[k];
      assert x in multiset(r);
      assert x in multiset(s);
      assert x in s;
    }
  }

  /** With every segment starting at 0 or later, no merged timestamp is negative. */
  lemma DetectNonNegative(detector: Detector, threshold: real, crop: Option<CropRect>, segments: seq<Segment>, ts: seq<real>)
    requires forall i :: 0 <= i < |segments| ==> segments[i].start >= 0.0
    requires DetectSpec(detector, threshold, crop, segments) == Success(ts)
    ensures forall k :: 0 <= k < |ts| ==> ts[k] >= 0.0
  {
    var used := UsedSegments(segments);
    var rs := seq(|used|, i requires 0 <= i < |used| => DetectTask(detector, threshold, crop, used[i]));
    forall i | 0 <= i < |rs| ensures rs[i].Success? ==> forall t :: t in rs[i].value ==> t >= 0.0 {
      DetectTaskAtLeastStart(detector, threshold, crop, used[i]);
    }
    CollectAllAtLeast(rs, 0.0);
    var c := Collect(rs);
    FlattenAllAtLeast(c.value, 0.0);
    SortKeepsAtLeast(Flatten(c.value), 0.0);
  }

  lemma {:induction false} FlattenAllAtLeast(ss: seq<seq<real>>, lo: real)
    requires forall i :: 0 <= i < |ss| ==> forall t :: t in ss[i] ==> t >= lo
    ensures forall t :: t in Flatten(ss) ==> t >= lo
  {
    if ss != [] {
      FlattenAllAtLeast(ss[1..], lo);
    }
  }

  // ---------------------------------------------------------------------------------------
  // The adaptive threshold controller

  /** `Math.round(value * 100) / 100`. */
  function RoundThreshold(value: real): real {
    Round(value * 100.0) as real / 100.0
  }

  /** `Math.max(minThreshold, roundThreshold(chosen * 0.5))`. */
  function RetryThreshold(threshold: real, minThreshold: real): (r: real)
    ensures r >= minThreshold
  {
    MaxReal(minThreshold, RoundThreshold(threshold * 0.5))
  }

  /** `clamp(count / Math.max(1, targetMinSlides), 0, 1)`. */
  function Confidence(count: nat, targetMinSlides: int): (c: real)
    ensures 0.0 <= c <= 1.0
    ensures count == 0 ==> c == 0.0
    ensures count >= MaxInt(1, targetMinSlides) ==> c == 1.0
  {
    Clamp(count as real / MaxInt(1, targetMinSlides) as real, 0.0, 1.0)
  }

  datatype SceneEvaluation = SceneEvaluation(threshold: real, timestamps: seq<real>, confidence: real)

  /** The conditions under which the controller runs its one retry. */
  predicate RetryWanted(count: nat, threshold: real, minThreshold: real, targetMinSlides: int) {
    count < targetMinSlides && threshold > minThreshold && RetryThreshold(threshold, minThreshold) != threshold
  }

  /**
   * What `detectSceneTimestampsAdaptive` returns for a detector viewed as a function of the
   * threshold: the base run, replaced by the retry only when the retry finds strictly more.
   */
  function Adaptive(detect: real -> Result<seq<real>, string>, threshold: real, minThreshold: real, targetMinSlides: int)
    : Result<SceneEvaluation, string>
  {
    match detect(threshold)
    case Failure(e) => Failure(e)
    case Success(base) =>
      if RetryWanted(|base|, threshold, minThreshold, targetMinSlides) then
        var retryThreshold := RetryThreshold(threshold, minThreshold);
        match detect(retryThreshold)
        case Failure(e) => Failure(e)
        case Success(retry) =>
          if |retry| > |base| then Success(SceneEvaluation(retryThreshold, retry, Confidence(|retry|, targetMinSlides)))
          else Success(SceneEvaluation(threshold, base, Confidence(|base|, targetMinSlides)))
      else Success(SceneEvaluation(threshold, base, Confidence(|base|, targetMinSlides)))
  }

  /** The detector the controller uses: the segment-parallel run for one crop and segment list. */
  function DetectorAt(detector: Detector, crop: Option<CropRect>, segments: seq<Segment>): real -> Result<seq<real>, string>
  {
    t => DetectSpec(detector, t, crop, segments)
  }

  /**
   * `detectSceneTimestampsAdaptive`: `chosen` and `timestamps` start at the base run and are
   * overwritten by a better retry; an empty result appends a warning.
   */
  method DetectSceneTimestampsAdaptive(
    detector: Detector, threshold: real, minThreshold: real, targetMinSlides: int,
    crop: Option<CropRect>, durationSeconds: Option<real>, workers: int, warnings: seq<Warning>)
    returns (r: Result<SceneEvaluation, string>, warnings': seq<Warning>)
    ensures r == Adaptive(DetectorAt(detector, crop, Segments(durationSeconds, workers)), threshold, minThreshold, targetMinSlides)
    ensures warnings' == warnings + (if r.Success? && |r.value.timestamps| == 0 then [NoSceneCandidates] else [])
  {
    warnings' := warnings;
    var segments := BuildSegments(durationSeconds, workers);
    var chosen := threshold;
    ghost var detect := DetectorAt(detector, crop, segments);
    var base := DetectSceneTimestamps(detector, chosen, crop, segments, workers);
    assert base == detect(threshold);
    if base.Failure? {
      return Failure(base.error), warnings';
    }
    var timestamps := base.value;
    if |timestamps| < targetMinSlides && chosen > minThreshold {
      var retryThreshold := MaxReal(minThreshold, RoundThreshold(chosen * 0.5));
      if retryThreshold != chosen {
        var retry := DetectSceneTimestamps(detector, retryThreshold, crop, segments, workers);
        assert retry == detect(RetryThreshold(threshold, minThreshold));
        if retry.Failure? {
          return Failure(retry.error), warnings';
        }
        if |retry.value| > |timestamps| {
          chosen := retryThreshold;
          timestamps := retry.value;
        }
      }
    }
    if |timestamps| == 0 {
      warnings' := warnings' + [NoSceneCandidates];
    }
    var confidence := Clamp(|timestamps| as real / MaxInt(1, targetMinSlides) as real, 0.0, 1.0);
    r := Success(SceneEvaluation(chosen, timestamps, confidence));
  }

  /** Without the retry conditions the result depends on the base run alone. */
  lemma NoRetryUsesBaseOnly(detect: real -> Result<seq<real>, string>, other: real -> Result<seq<real>, string>,
                            threshold: real, minThreshold: real, targetMinSlides: int)
    requires detect(threshold) == other(threshold)
    requires detect(threshold).Success? ==> !RetryWanted(|detect(threshold).value|, threshold, minThreshold, targetMinSlides)
    ensures Adaptive(detect, threshold, minThreshold, targetMinSlides) == Adaptive(other, threshold, minThreshold, targetMinSlides)
  {
  }

  /**
   * When both runs succeed, the retry is chosen exactly when it finds strictly more timestamps;
   * a tie keeps the base run, and the count never goes below the base count.
   */
  lemma RetryChosenIffStrictlyMore(detect: real -> Result<seq<real>, string>, threshold: real, minThreshold: real, targetMinSlides: int)
    requires detect(threshold).Success?
    requires RetryWanted(|detect(threshold).value|, threshold, minThreshold, targetMinSlides)
    requires detect(RetryThreshold(threshold, minThreshold)).Success?
    ensures var base := detect(threshold).value;
            var retry := detect(RetryThreshold(threshold, minThreshold)).value;
            var r := Adaptive(detect, threshold, minThreshold, targetMinSlides);
      && r.Success?
      && (r.value.threshold == RetryThreshold(threshold, minThreshold) <==> |retry| > |base|)
      && (|retry| > |base| ==> r.value.timestamps == retry)
      && (|retry| <= |base| ==> r.value.timestamps == base)
      && |r.value.timestamps| >= |base|
  {
  }

  /** Half a threshold above 0.01, rounded to hundredths, is strictly below it. */
  lemma {:induction false} HalfRoundedIsBelow(t: real)
    requires t > 0.01
    ensures RoundThreshold(t * 0.5) < t
  {
    var x := t * 0.5 * 100.0;
    assert Round(x) as real <= x + 0.5;
    assert Round(x) as real / 100.0 <= t * 0.5 + 0.005;
  }

  /**
   * With the extractor's floor of 0.05, any threshold above the floor retries at a strictly
   * lower threshold that is still at least the floor, so the `retryThreshold !== chosen`
   * guard never fires.
   */
  lemma RetryStrictlyLower(t: real)
    requires t > 0.05
    ensures 0.05 <= RetryThreshold(t, 0.05) < t
  {
    HalfRoundedIsBelow(t);
  }

  /** The worked example: 2 scenes at 0.3, 6 at 0.15, a target of 5 selects 0.15 with 6 timestamps. */
  lemma ExampleRetryAtHalfThreshold()
    ensures var detect := (t: real) =>
              if t == 0.3 then Success([10.0, 20.0]) else Success([10.0, 20.0, 30.0, 40.0, 50.0, 60.0]);
            Adaptive(detect, 0.3, 0.05, 5)
              == Success(SceneEvaluation(0.15, [10.0, 20.0, 30.0, 40.0, 50.0, 60.0], 1.0))
  {
    assert Round(0.3 * 0.5 * 100.0) == 15;
    assert RetryThreshold(0.3, 0.05) == 0.15;
  }
}
