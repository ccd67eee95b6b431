/**
 * The bounded task executor (`runWithConcurrency`): every parallel stage of the pipeline
 * hands it a list of zero-argument tasks and gets the results back by task index.
 * The model runs the workers' shared loop sequentially: one cursor `nextIndex`, one slot
 * array `results`, each claimed task writing only its own slot.
 */
module Executor {
  import opened Wrappers
  import opened Numeric

  /** `Math.max(1, Math.min(16, Math.round(workers)))` for an integer worker count. */
  function ClampConcurrency(workers: int): (c: int)
    ensures 1 <= c <= 16
    ensures 1 <= workers <= 16 ==> c == workers
    ensures workers < 1 ==> c == 1
    ensures workers > 16 ==> c == 16
  {
    MaxInt(1, MinInt(16, Round(workers as real)))
  }

  /** The indices `lo, lo + 1, ..., hi - 1`, in order. */
  function Range(lo: nat, hi: nat): (r: seq<nat>)
    requires lo <= hi
    ensures |r| == hi - lo
    ensures forall k :: 0 <= k < |r| ==> r[k] == lo + k
    decreases hi - lo
  {
    if lo == hi then [] else [lo] + Range(lo + 1, hi)
  }

  /** What each task returns when called. */
  function Outcomes<R, E>(tasks: seq<() -> Result<R, E>>): (r: seq<Result<R, E>>)
    ensures |r| == |tasks|
    ensures forall i :: 0 <= i < |tasks| ==> r[i] == tasks[i]()
  {
    seq(|tasks|, i requires 0 <= i < |tasks| => tasks[i]())
  }

  /** All the values when every outcome succeeded, otherwise the first error. */
  function Collect<R, E>(rs: seq<Result<R, E>>): (r: Result<seq<R>, E>)
    ensures r.Success? ==> |r.value| == |rs| && forall i :: 0 <= i < |rs| ==> rs[i] == Success(r.value[i])
    ensures r.Failure? ==> exists i :: 0 <= i < |rs| && rs[i] == Failure(r.error)
                                       && forall j :: 0 <= j < i ==> rs[j].Success?
  {
    if rs == [] then Success([])
    else match rs[0]
      case Failure(e) => Failure(e)
      case Success(v) =>
        match Collect(rs[1..])
        case Failure(e) =>
          assert exists i :: 1 <= i < |rs| && rs[i] == Failure(e) && forall j :: 0 <= j < i ==> rs[j].Success? by {
            var k :| 0 <= k < |rs[1..]| && rs[1..][k] == Failure(e) && forall j :: 0 <= j < k ==> rs[1..][j].Success?;
            assert rs[k + 1] == Failure(e);
          }
          Failure(e)
        case Success(vs) => Success([v] + vs)
  }

  /** The task at `i` fails, and every task before it succeeds. */
  ghost predicate FirstFailure<R, E>(tasks: seq<() -> Result<R, E>>, i: int) {
    && 0 <= i < |tasks|
    && tasks[i]().Failure?
    && forall j :: 0 <= j < i ==> tasks[j]().Success?
  }

  /**
   * Runs every task and returns their results in task order, not completion order.
   * `runners` is how many worker loops the source starts (`Math.min(concurrency, tasks.length)`);
   * `claims` is the sequence of indices the workers took from the cursor.
   * A task that throws makes the whole run fail with its error; workers claim in index order,
   * so (run sequentially) the error is that of the first failing task.
   */
  method RunWithConcurrency<R, E>(tasks: seq<() -> Result<R, E>>, workers: int)
    returns (outcome: Result<seq<R>, E>, runners: nat, ghost claims: seq<nat>)
    ensures outcome == Collect(Outcomes(tasks))
    ensures |tasks| == 0 ==> outcome == Success([]) && runners == 0 && claims == []
    ensures |tasks| > 0 ==> 1 <= runners <= 16 && runners == MinInt(ClampConcurrency(workers), |tasks|)
    ensures outcome.Success? ==> claims == Range(0, |tasks|)
    ensures outcome.Failure? ==> 1 <= |claims| && claims == Range(0, |claims|) && FirstFailure(tasks, |claims| - 1)
  {
    if |tasks| == 0 {
      return Success([]), 0, [];
    }
    var concurrency := ClampConcurrency(workers);
    runners := MinInt(concurrency, |tasks|);
    var results := new Option<R>[|tasks|](_ => None);
    var nextIndex := 0;
    claims := [];
    while nextIndex < |tasks|
      invariant 0 <= nextIndex <= |tasks| == results.Length
      invariant claims == Range(0, nextIndex)
      invariant Filled(results[..], tasks, nextIndex)
    {
      var current := nextIndex;
      nextIndex := nextIndex + 1;
      claims := claims + [current];
      assert claims == Range(0, nextIndex) by { RangeSnoc(0, current); }
      var r := tasks[current]();
      if r.Failure? {
        FailureCollected(tasks, current);
        return Failure(r.error), runners, claims;
      }
      ghost var before := results[..];
      results[current] := Some(r.value);
      FilledStep(before, tasks, current, r.value);
      assert results[..] == before[current := Some(r.value)];
    }
    var values := SlotValues(results[..]);
    FilledCollected(results[..], tasks);
    outcome := Success(values);
  }

  /** The first `n` tasks succeed, and slot `k` holds the value of task `k`. */
  ghost predicate Filled<R, E>(slots: seq<Option<R>>, tasks: seq<() -> Result<R, E>>, n: nat) {
    && n <= |slots|
    && n <= |tasks|
    && forall k :: 0 <= k < n ==> tasks[k]().Success? && slots[k] == Some(tasks[k]().value)
  }

  /** Writing the value of task `n` into slot `n` fills one more slot. */
  lemma FilledStep<R, E>(slots: seq<Option<R>>, tasks: seq<() -> Result<R, E>>, n: nat, v: R)
    requires Filled(slots, tasks, n) && n < |slots| && n < |tasks|
    requires tasks[n]() == Success(v)
    ensures Filled(slots[n := Some(v)], tasks, n + 1)
  {
  }

  /** The values held by slots that are all filled. */
  function SlotValues<R>(slots: seq<Option<R>>): (values: seq<R>)
    requires forall k :: 0 <= k < |slots| ==> slots[k].Some?
    ensures |values| == |slots|
    ensures forall k :: 0 <= k < |slots| ==> slots[k] == Some(values[k])
  {
    seq(|slots|, k requires 0 <= k < |slots| => slots[k].value)
  }

  /** Once every slot is filled, the run yields the slots' values in task order. */
  lemma FilledCollected<R, E>(slots: seq<Option<R>>, tasks: seq<() -> Result<R, E>>)
    requires |slots| == |tasks| && Filled(slots, tasks, |tasks|)
    ensures forall k :: 0 <= k < |slots| ==> slots[k].Some?
    ensures Collect(Outcomes(tasks)) == Success(SlotValues(slots))
  {
    CollectAllSuccess(Outcomes(tasks), SlotValues(slots));
  }

  /** The first failing task decides the run. */
  lemma FailureCollected<R, E>(tasks: seq<() -> Result<R, E>>, i: nat)
    requires i < |tasks| && tasks[i]().Failure?
    requires forall k :: 0 <= k < i ==> tasks[k]().Success?
    ensures FirstFailure(tasks, i)
    ensures Collect(Outcomes(tasks)) == Failure(tasks[i]().error)
  {
    CollectFirstFailure(Outcomes(tasks), i);
  }

  lemma {:induction false} CollectFirstFailure<R, E>(rs: seq<Result<R, E>>, i: nat)
    requires i < |rs| && rs[i].Failure?
    requires forall j :: 0 <= j < i ==> rs[j].Success?
    ensures Collect(rs) == Failure(rs[i].error)
  {
    if i > 0 {
      CollectFirstFailure(rs[1..], i - 1);
    }
  }

  lemma CollectAllSuccess<R, E>(rs: seq<Result<R, E>>, values: seq<R>)
    requires |values| == |rs|
    requires forall j :: 0 <= j < |rs| ==> rs[j] == Success(values[j])
    ensures Collect(rs) == Success(values)
    decreases |rs|
  {
    if rs != [] {
      CollectAllSuccess(rs[1..], values[1..]);
      assert values == [values[0]] + values[1..];
    }
  }

  lemma {:induction false} RangeSnoc(lo: nat, hi: nat)
    requires lo <= hi
    ensures Range(lo, hi + 1) == Range(lo, hi) + [hi]
    decreases hi - lo
  {
    if lo < hi {
      RangeSnoc(lo + 1, hi);
    }
  }
}
