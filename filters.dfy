/**
 * The post-filters of the slide pipeline: the gap collapse of `mergeTimestamps`, the
 * `maxSlides` cap of `applyMaxSlidesFilter` and the min-duration filter of
 * `applyMinDurationFilter`. The first and the last are the same greedy forward scan:
 * an element is kept when it lies at least a gap after the last element kept so far.
 */
module SlideFilters {
  import opened Wrappers
  import opened Numeric
  import opened Seqs
  import opened SlideTypes
  import opened Diagnostics

  // ---------------------------------------------------------------------------------------
  // The greedy scan

  /** The key of the last kept element; `None` while nothing is kept (the source's `-Infinity`). */
  function LastKey<T>(kept: seq<T>, key: T -> real): Option<real> {
    if kept == [] then None else Some(key(kept[|kept| - 1]))
  }

  /** A candidate with key `k` is kept after the last kept key `last`. */
  predicate Admits(last: Option<real>, k: real, gap: real) {
    last.None? || k - last.value >= gap
  }

  /** The elements the forward scan keeps, in input order. */
  function GreedyKeep<T>(s: seq<T>, key: T -> real, gap: real): (r: seq<T>)
    ensures |r| <= |s|
    decreases |s|
  {
    if s == [] then []
    else
      var before := GreedyKeep(s[..|s| - 1], key, gap);
      if Admits(LastKey(before, key), key(s[|s| - 1]), gap) then before + [s[|s| - 1]] else before
  }

  /** The scan over `s[..i + 1]` is the scan over `s[..i]`, plus `s[i]` if it is admitted. */
  lemma GreedyKeepStep<T>(s: seq<T>, i: nat, kept: seq<T>, key: T -> real, gap: real)
    requires i < |s| && kept == GreedyKeep(s[..i], key, gap)
    ensures GreedyKeep(s[..i + 1], key, gap) ==
              if kept == [] || key(s[i]) - key(kept[|kept| - 1]) >= gap then kept + [s[i]] else kept
  {
    assert s[..i + 1][..i] == s[..i];
  }

  /** The kept elements are a subsequence of the input: nothing added, order kept. */
  lemma {:induction false} GreedyKeepSubsequence<T>(s: seq<T>, key: T -> real, gap: real)
    ensures IsSubsequence(GreedyKeep(s, key, gap), s)
    decreases |s|
  {
    if s != [] {
      var front := s[..|s| - 1];
      var x := s[|s| - 1];
      assert s == front + [x];
      GreedyKeepSubsequence(front, key, gap);
      var before := GreedyKeep(front, key, gap);
      if Admits(LastKey(before, key), key(x), gap) {
        SubsequenceSnocBoth(before, front, x);
      } else {
        SubsequenceSnocRight(before, front, x);
      }
    }
  }

  /** Every kept element is an input element. */
  lemma {:induction false} GreedyKeepMembers<T>(s: seq<T>, key: T -> real, gap: real)
    ensures forall k :: 0 <= k < |GreedyKeep(s, key, gap)| ==> GreedyKeep(s, key, gap)[k] in s
    decreases |s|
  {
    if s != [] {
      var front := s[..|s| - 1];
      GreedyKeepMembers(front, key, gap);
      assert forall y :: y in front ==> y in s;
    }
  }

  /** The element after position `i` lies at least `gap` after it by `key`. */
  ghost predicate StepAtLeast<T>(r: seq<T>, i: int, key: T -> real, gap: real)
    requires 0 <= i < |r| - 1
  {
    key(r[i + 1]) - key(r[i]) >= gap
  }

  /** Consecutive elements lie at least `gap` apart by `key`. */
  ghost predicate Gapped<T>(r: seq<T>, key: T -> real, gap: real) {
    forall i :: 0 <= i < |r| - 1 ==> StepAtLeast(r, i, key, gap)
  }

  lemma GappedSnoc<T>(r: seq<T>, x: T, key: T -> real, gap: real)
    requires Gapped(r, key, gap)
    requires r != [] ==> key(x) - key(r[|r| - 1]) >= gap
    ensures Gapped(r + [x], key, gap)
  {
    var r' := r + [x];
    forall i | 0 <= i < |r'| - 1 ensures StepAtLeast(r', i, key, gap) {
      if i + 1 < |r| {
        assert r'[i] == r[i] && r'[i + 1] == r[i + 1];
        assert StepAtLeast(r, i, key, gap);
      }
    }
  }

  /** Consecutive kept elements lie at least `gap` apart. */
  lemma {:induction false} GreedyKeepGaps<T>(s: seq<T>, key: T -> real, gap: real)
    ensures Gapped(GreedyKeep(s, key, gap), key, gap)
    decreases |s|
  {
    if s != [] {
      var front := s[..|s| - 1];
      var x := s[|s| - 1];
      var before := GreedyKeep(front, key, gap);
      GreedyKeepGaps(front, key, gap);
      if Admits(LastKey(before, key), key(x), gap) {
        GappedSnoc(before, x, key, gap);
      }
    }
  }

  /** The first input element is always kept, and is the first output element. */
  lemma {:induction false} GreedyKeepFirst<T>(s: seq<T>, key: T -> real, gap: real)
    requires s != []
    ensures GreedyKeep(s, key, gap) != [] && GreedyKeep(s, key, gap)[0] == s[0]
    decreases |s|
  {
    if |s| > 1 {
      var front := s[..|s| - 1];
      GreedyKeepFirst(front, key, gap);
      assert front[0] == s[0];
    }
  }

  /** `y` lies less than `gap` after some element of `r`, and not before it. */
  ghost predicate CloseAfter<T>(y: T, r: seq<T>, key: T -> real, gap: real) {
    exists k :: 0 <= k < |r| && 0.0 <= key(y) - key(r[k]) < gap
  }

  lemma CloseAfterExtend<T>(y: T, r: seq<T>, more: seq<T>, key: T -> real, gap: real)
    requires CloseAfter(y, r, key, gap)
    ensures CloseAfter(y, r + more, key, gap)
  {
    var k :| 0 <= k < |r| && 0.0 <= key(y) - key(r[k]) < gap;
    assert (r + more)[k] == r[k];
  }

  /**
   * On input in key order every element lies less than `gap` after some kept element at or
   * before it: what the scan drops is within `gap` of the last element kept before it.
   */
  lemma {:induction false} GreedyKeepCovers<T>(s: seq<T>, key: T -> real, gap: real)
    requires gap > 0.0
    requires SortedBy(s, key)
    ensures forall j :: 0 <= j < |s| ==> CloseAfter(s[j], GreedyKeep(s, key, gap), key, gap)
    decreases |s|
  {
    if s != [] {
      var r := GreedyKeep(s, key, gap);
      var front := s[..|s| - 1];
      var x := s[|s| - 1];
      var before := GreedyKeep(front, key, gap);
      SortedByFront(s, key);
      GreedyKeepCovers(front, key, gap);
      var admitted := Admits(LastKey(before, key), key(x), gap);
      var more := if admitted then [x] else [];
      assert r == before + more;
      if !admitted {
        DroppedIsClose(s, key, gap);
      }
      forall j | 0 <= j < |s| ensures CloseAfter(s[j], r, key, gap) {
        if j < |front| {
          assert s[j] == front[j];
          CloseAfterExtend(s[j], before, more, key, gap);
        } else if admitted {
          assert r[|r| - 1] == x == s[j];
        } else {
          assert s[j] == x && r == before;
        }
      }
    }
  }

  /** Dropping the last element keeps the order. */
  lemma SortedByFront<T>(s: seq<T>, key: T -> real)
    requires s != [] && SortedBy(s, key)
    ensures SortedBy(s[..|s| - 1], key)
  {
    var front := s[..|s| - 1];
    forall i, j | 0 <= i < j < |front| ensures key(front[i]) <= key(front[j]) {
      assert front[i] == s[i] && front[j] == s[j];
    }
  }

  /**
   * On input in key order, a last element the scan does not admit lies less than `gap` after
   * the element kept last before it.
   */
  lemma DroppedIsClose<T>(s: seq<T>, key: T -> real, gap: real)
    requires s != [] && SortedBy(s, key)
    requires !Admits(LastKey(GreedyKeep(s[..|s| - 1], key, gap), key), key(s[|s| - 1]), gap)
    ensures CloseAfter(s[|s| - 1], GreedyKeep(s[..|s| - 1], key, gap), key, gap)
  {
    var front := s[..|s| - 1];
    var before := GreedyKeep(front, key, gap);
    var last := before[|before| - 1];
    GreedyKeepMembers(front, key, gap);
    assert last in front;
    var i :| 0 <= i < |front| && front[i] == last;
    assert front[i] == s[i];
    assert key(s[i]) <= key(s[|s| - 1]);
    assert 0.0 <= key(s[|s| - 1]) - key(before[|before| - 1]) < gap;
  }

  // ---------------------------------------------------------------------------------------
  // mergeTimestamps

  /** `Math.max(0.1, minDurationSeconds * 0.5)`. */
  function MinGap(minDurationSeconds: real): (g: real)
    ensures g >= 0.1 && g >= minDurationSeconds * 0.5
  {
    MaxReal(0.1, minDurationSeconds * 0.5)
  }

  /** What `mergeTimestamps` returns: the scan over both lists together, sorted ascending. */
  function MergedTimestamps(sceneTimestamps: seq<real>, intervalTimestamps: seq<real>, minDurationSeconds: real): seq<real> {
    GreedyKeep(SortBy(sceneTimestamps + intervalTimestamps, Identity), Identity, MinGap(minDurationSeconds))
  }

  /**
   * `mergeTimestamps`: concatenate, sort, then keep a timestamp when nothing is kept yet or it is
   * at least the minimum gap after the last kept one.
   */
  method MergeTimestamps(sceneTimestamps: seq<real>, intervalTimestamps: seq<real>, minDurationSeconds: real)
    returns (result: seq<real>)
    ensures result == MergedTimestamps(sceneTimestamps, intervalTimestamps, minDurationSeconds)
  {
    var merged := SortBy(sceneTimestamps + intervalTimestamps, Identity);
    // The early `return []` for an empty list is the loop below run zero times.
    result := [];
    var minGap := MaxReal(0.1, minDurationSeconds * 0.5);
    for i := 0 to |merged|
      invariant result == GreedyKeep(merged[..i], Identity, minGap)
    {
      var ts := merged[i];
      GreedyKeepStep(merged, i, result, Identity, minGap);
      if |result| == 0 || ts - result[|result| - 1] >= minGap {
        result := result + [ts];
      }
    }
    assert merged[..|merged|] == merged;
  }

  /**
   * The merged timestamps: empty exactly for empty input; otherwise a subsequence of the
   * sorted input that starts with the smallest input value and climbs by at least the minimum
   * gap, so strictly.
   */
  lemma MergedTimestampsProperties(sceneTimestamps: seq<real>, intervalTimestamps: seq<real>, minDurationSeconds: real)
    ensures var all := sceneTimestamps + intervalTimestamps;
            var r := MergedTimestamps(sceneTimestamps, intervalTimestamps, minDurationSeconds);
      && (r == [] <==> all == [])
      && IsSubsequence(r, SortBy(all, Identity))
      && (r != [] ==> forall t :: t in all ==> r[0] <= t)
      && (r != [] ==> r[0] in all)
      && Gapped(r, Identity, MinGap(minDurationSeconds))
      && (forall i, j :: 0 <= i < j < |r| ==> r[i] < r[j])
  {
    var all := sceneTimestamps + intervalTimestamps;
    var sorted := SortBy(all, Identity);
    var gap := MinGap(minDurationSeconds);
    var r := GreedyKeep(sorted, Identity, gap);
    GreedyKeepSubsequence(sorted, Identity, gap);
    GreedyKeepGaps(sorted, Identity, gap);
    if all != [] {
      assert |sorted| == |all|;
      GreedyKeepFirst(sorted, Identity, gap);
      assert sorted[0] in multiset(all);
      forall t | t in all ensures r[0] <= t {
        assert t in multiset(sorted);
        var k :| 0 <= k < |sorted| && sorted[k] == t;
        assert Identity(sorted[0]) <= Identity(sorted[k]);
      }
    }
    StrictlyIncreasing(r, gap);
  }

  /** Steps of at least a positive gap make a sequence strictly increasing. */
  lemma {:induction false} StrictlyIncreasing(r: seq<real>, gap: real)
    requires gap > 0.0
    requires Gapped(r, Identity, gap)
    ensures forall i, j :: 0 <= i < j < |r| ==> r[i] < r[j]
    decreases |r|
  {
    if |r| > 1 {
      var t := r[1..];
      forall i | 0 <= i < |t| - 1 ensures StepAtLeast(t, i, Identity, gap) {
        assert t[i] == r[i + 1] && t[i + 1] == r[i + 2];
        assert StepAtLeast(r, i + 1, Identity, gap);
      }
      StrictlyIncreasing(t, gap);
      assert StepAtLeast(r, 0, Identity, gap);
      forall j | 1 <= j < |r| ensures r[0] < r[j] {
        if j > 1 { assert t[0] < t[j - 1]; }
      }
    }
  }

  // ---------------------------------------------------------------------------------------
  // Re-indexing

  /** Indices are exactly `1..N` in list order. */
  predicate IndexedFromOne(slides: seq<SlideImage>) {
    forall i :: 0 <= i < |slides| ==> slides[i].index == i + 1
  }

  /** `slides.map((slide, index) => ({ ...slide, index: index + 1 }))`. */
  function Reindex(slides: seq<SlideImage>): (r: seq<SlideImage>)
    ensures |r| == |slides| && IndexedFromOne(r)
    ensures forall i :: 0 <= i < |slides| ==> r[i] == slides[i].(index := i + 1)
  {
    seq(|slides|, i requires 0 <= i < |slides| => slides[i].(index := i + 1))
  }

  function Timestamp(slide: SlideImage): real {
    slide.timestamp
  }

  /** The image paths of `slides`, in order. */
  function Paths(slides: seq<SlideImage>): (r: seq<string>)
    ensures |r| == |slides| && forall i :: 0 <= i < |slides| ==> r[i] == slides[i].imagePath
  {
    seq(|slides|, i requires 0 <= i < |slides| => slides[i].imagePath)
  }

  // ---------------------------------------------------------------------------------------
  // applyMaxSlidesFilter

  predicate HasPath(slide: SlideImage) {
    slide.imagePath != ""
  }

  /** The slides a filter returns, the warnings after it, and the image files it removes. */
  datatype Filtered = Filtered(slides: seq<SlideImage>, warnings: seq<Warning>, removed: seq<string>)

  /**
   * `applyMaxSlidesFilter`: with a positive cap below the slide count, keep the first `maxSlides`
   * slides re-indexed from 1, remove the images of the rest that have one, and warn once;
   * otherwise change nothing.
   */
  function ApplyMaxSlidesFilter(slides: seq<SlideImage>, maxSlides: int, warnings: seq<Warning>): (r: Filtered)
    ensures maxSlides <= 0 || |slides| <= maxSlides ==> r == Filtered(slides, warnings, [])
    ensures 0 < maxSlides < |slides| ==>
              && |r.slides| == maxSlides
              && IndexedFromOne(r.slides)
              && (forall i :: 0 <= i < maxSlides ==> r.slides[i].(index := slides[i].index) == slides[i])
              && r.warnings == warnings + [TrimmedToMax(maxSlides)]
              && r.removed == Paths(Filter(slides[maxSlides..], HasPath))
  {
    if maxSlides <= 0 || |slides| <= maxSlides then Filtered(slides, warnings, [])
    else
      var kept := slides[..maxSlides];
      var removed := slides[maxSlides..];
      Filtered(Reindex(kept), warnings + [TrimmedToMax(maxSlides)], Paths(Filter(removed, HasPath)))
  }

  function Placeholders(timestamps: seq<real>): (r: seq<SlideImage>)
    ensures |r| == |timestamps| && IndexedFromOne(r)
    ensures forall i :: 0 <= i < |r| ==> r[i].timestamp == timestamps[i] && r[i].imagePath == ""
  {
    seq(|timestamps|, i requires 0 <= i < |timestamps| => SlideImage(i + 1, timestamps[i], "", None, None))
  }

  /** Five raw timestamps under a cap of three: three slides indexed 1, 2, 3 and one warning. */
  lemma TrimFiveToThree(warnings: seq<Warning>)
    ensures var r := ApplyMaxSlidesFilter(Placeholders([1.0, 2.0, 3.0, 4.0, 5.0]), 3, warnings);
      && |r.slides| == 3
      && r.slides[0].index == 1 && r.slides[1].index == 2 && r.slides[2].index == 3
      && r.slides[0].timestamp == 1.0 && r.slides[1].timestamp == 2.0 && r.slides[2].timestamp == 3.0
      && r.warnings == warnings + [TrimmedToMax(3)]
      && r.removed == []
  {
    var s := Placeholders([1.0, 2.0, 3.0, 4.0, 5.0]);
    NoPathsFiltered(s[3..]);
  }

  lemma {:induction false} NoPathsFiltered(s: seq<SlideImage>)
    requires forall i :: 0 <= i < |s| ==> s[i].imagePath == ""
    ensures Filter(s, HasPath) == []
  {
    if s != [] {
      NoPathsFiltered(s[1..]);
    }
  }

  // ---------------------------------------------------------------------------------------
  // applyMinDurationFilter

  /**
   * `applyMinDurationFilter`: with a positive minimum, the greedy scan over the timestamps,
   * re-indexed from 1; each dropped slide's image is removed, and a warning gives the count of
   * dropped slides when there are any. A non-positive minimum returns the slides as they are.
   */
  method ApplyMinDurationFilter(slides: seq<SlideImage>, minDurationSeconds: real, warnings: seq<Warning>)
    returns (filtered: seq<SlideImage>, warnings': seq<Warning>, removed: seq<string>)
    ensures filtered == MinDurationFiltered(slides, minDurationSeconds)
    ensures warnings' == warnings + MinDurationWarnings(slides, minDurationSeconds)
    ensures minDurationSeconds <= 0.0 ==> filtered == slides && warnings' == warnings && removed == []
    ensures minDurationSeconds > 0.0 ==>
              && filtered == Reindex(GreedyKeep(slides, Timestamp, minDurationSeconds))
              && |removed| == |slides| - |filtered|
              && (forall p :: p in removed ==> p in Paths(slides))
              && warnings' == warnings + (if |filtered| < |slides| then [FilteredByMinDuration(|slides| - |filtered|)] else [])
  {
    if minDurationSeconds <= 0.0 {
      return slides, warnings, [];
    }
    var kept: seq<SlideImage> := [];
    var lastTimestamp: Option<real> := None;
    removed := [];
    for i := 0 to |slides|
      invariant kept == GreedyKeep(slides[..i], Timestamp, minDurationSeconds)
      invariant lastTimestamp == LastKey(kept, Timestamp)
      invariant |removed| == i - |kept|
      invariant forall p :: p in removed ==> p in Paths(slides)
    {
      var slide := slides[i];
      GreedyKeepStep(slides, i, kept, Timestamp, minDurationSeconds);
      if lastTimestamp.None? || slide.timestamp - lastTimestamp.value >= minDurationSeconds {
        kept := kept + [slide];
        lastTimestamp := Some(slide.timestamp);
      } else {
        assert slide.imagePath == Paths(slides)[i];
        removed := removed + [slide.imagePath];
      }
    }
    assert slides[..|slides|] == slides;
    warnings' := warnings;
    if |kept| < |slides| {
      warnings' := warnings' + [FilteredByMinDuration(|slides| - |kept|)];
    }
    filtered := Reindex(kept);
  }

  /**
   * After the min-duration filter the first slide survives, consecutive survivors lie at least
   * the minimum apart, indices run `1..N`, and every survivor is an input slide with only its
   * index changed, in input order.
   */
  lemma MinDurationProperties(slides: seq<SlideImage>, minDurationSeconds: real)
    requires minDurationSeconds > 0.0
    ensures var kept := GreedyKeep(slides, Timestamp, minDurationSeconds);
            var r := Reindex(kept);
      && IndexedFromOne(r)
      && (slides != [] ==> r != [] && r[0] == slides[0].(index := 1))
      && Gapped(r, Timestamp, minDurationSeconds)
      && IsSubsequence(kept, slides)
      && (forall i :: 0 <= i < |r| ==> r[i].(index := kept[i].index) in slides)
  {
    var kept := GreedyKeep(slides, Timestamp, minDurationSeconds);
    GreedyKeepGaps(slides, Timestamp, minDurationSeconds);
    GreedyKeepSubsequence(slides, Timestamp, minDurationSeconds);
    GreedyKeepMembers(slides, Timestamp, minDurationSeconds);
    if slides != [] {
      GreedyKeepFirst(slides, Timestamp, minDurationSeconds);
    }
    var r := Reindex(kept);
    forall i | 0 <= i < |r| - 1 ensures StepAtLeast(r, i, Timestamp, minDurationSeconds) {
      assert StepAtLeast(kept, i, Timestamp, minDurationSeconds);
    }
  }

  /**
   * On slides in timestamp order, the slide at `j` lies less than the minimum after some kept
   * slide: a dropped slide is close to the last slide kept before it.
   */
  lemma MinDurationDropsAreClose(slides: seq<SlideImage>, minDurationSeconds: real, j: nat)
    requires minDurationSeconds > 0.0
    requires SortedBy(slides, Timestamp)
    requires j < |slides|
    ensures exists k :: 0 <= k < |GreedyKeep(slides, Timestamp, minDurationSeconds)|
                     && 0.0 <= slides[j].timestamp - GreedyKeep(slides, Timestamp, minDurationSeconds)[k].timestamp < minDurationSeconds
  {
    GreedyKeepCovers(slides, Timestamp, minDurationSeconds);
    var kept := GreedyKeep(slides, Timestamp, minDurationSeconds);
    var k :| 0 <= k < |kept| && 0.0 <= Timestamp(slides[j]) - Timestamp(kept[k]) < minDurationSeconds;
    assert 0 <= k < |GreedyKeep(slides, Timestamp, minDurationSeconds)|
        && 0.0 <= slides[j].timestamp - GreedyKeep(slides, Timestamp, minDurationSeconds)[k].timestamp < minDurationSeconds;
  }

  /** The slides `applyMinDurationFilter` returns. */
  function MinDurationFiltered(slides: seq<SlideImage>, minDurationSeconds: real): seq<SlideImage> {
    if minDurationSeconds <= 0.0 then slides else Reindex(GreedyKeep(slides, Timestamp, minDurationSeconds))
  }

  /**
   * The min-duration filter returns slides indexed `1..N`, no more than it was given, each of
   * them an input slide with its file and time unchanged.
   */
  lemma {:induction false} MinDurationFilteredFromInput(slides: seq<SlideImage>, minDurationSeconds: real)
    requires IndexedFromOne(slides)
    ensures var r := MinDurationFiltered(slides, minDurationSeconds);
      && IndexedFromOne(r) && |r| <= |slides|
      && forall i :: 0 <= i < |r| ==> FileAndTimeIn(r[i], slides)
  {
    var r := MinDurationFiltered(slides, minDurationSeconds);
    if minDurationSeconds > 0.0 {
      var kept := GreedyKeep(slides, Timestamp, minDurationSeconds);
      assert r == Reindex(kept);
      GreedyKeepMembers(slides, Timestamp, minDurationSeconds);
      forall i | 0 <= i < |r| ensures FileAndTimeIn(r[i], slides) {
        var j :| 0 <= j < |slides| && slides[j] == kept[i];
        assert r[i].imagePath == slides[j].imagePath && r[i].timestamp == slides[j].timestamp;
      }
    } else {
      assert r == slides;
      forall i | 0 <= i < |r| ensures FileAndTimeIn(r[i], slides) {
        assert r[i].imagePath == slides[i].imagePath && r[i].timestamp == slides[i].timestamp;
      }
    }
  }

  /** `x` carries the image file and the timestamp of some slide of `slides`. */
  ghost predicate FileAndTimeIn(x: SlideImage, slides: seq<SlideImage>) {
    exists j :: 0 <= j < |slides| && x.imagePath == slides[j].imagePath && x.timestamp == slides[j].timestamp
  }

  /** The warning `applyMinDurationFilter` appends, if any. */
  function MinDurationWarnings(slides: seq<SlideImage>, minDurationSeconds: real): seq<Warning> {
    var kept := MinDurationFiltered(slides, minDurationSeconds);
    if |kept| < |slides| then [FilteredByMinDuration(|slides| - |kept|)] else []
  }
}
