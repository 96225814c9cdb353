/**
 * OnboardReady: the processing queue, its retry action, the per-status
 * counters and the elapsed-time label.
 */
module Onboard {

  import opened Wrappers
  import Types
  import Text
  import Lists

  datatype JobStatus = Pending | Processing | Completed | Error

  datatype JobStep = JobStep(name: string, status: JobStatus)

  datatype ProcessingJob = ProcessingJob(
    id: string,
    assetId: string,
    asset: Types.Asset,
    status: JobStatus,
    progress: int,
    steps: seq<JobStep>,
    startedAt: Option<int>,
    completedAt: Option<int>,
    error: Option<string>)

  /** The retry button is shown only on failed jobs. */
  predicate RetryOffered(job: ProcessingJob) {
    job.status == Error
  }

  function Retried(job: ProcessingJob): ProcessingJob {
    job.(status := Processing, progress := 0, error := None)
  }

  /** `handleRetryJob`: the job with `id` goes back to processing at 0% without an error. */
  function RetryJob(jobs: seq<ProcessingJob>, id: string): (r: seq<ProcessingJob>)
    ensures |r| == |jobs|
    ensures forall k :: 0 <= k < |jobs| && jobs[k].id != id ==> r[k] == jobs[k]
    ensures forall k :: 0 <= k < |jobs| && jobs[k].id == id ==>
              && r[k].status == Processing && r[k].progress == 0 && r[k].error.None?
              && r[k] == jobs[k].(status := r[k].status, progress := r[k].progress, error := r[k].error)
              && !RetryOffered(r[k])
  {
    seq(|jobs|, k requires 0 <= k < |jobs| => if jobs[k].id == id then Retried(jobs[k]) else jobs[k])
  }

  /** Retrying twice is the same as retrying once. */
  lemma RetryIdempotent(jobs: seq<ProcessingJob>, id: string)
    ensures RetryJob(RetryJob(jobs, id), id) == RetryJob(jobs, id)
  {
  }

  // ---------------------------------------------------------------- counters

  function HasStatus(s: JobStatus): ProcessingJob -> bool {
    (job: ProcessingJob) => job.status == s
  }

  /** `processingJobs.filter(job => job.status === s).length`. */
  function CountWith(jobs: seq<ProcessingJob>, s: JobStatus): (r: nat)
    ensures r <= |jobs|
  {
    Lists.Count(HasStatus(s), jobs)
  }

  /** The four counters add up to the number of jobs. */
  lemma {:induction false} CountersCoverQueue(jobs: seq<ProcessingJob>)
    ensures CountWith(jobs, Pending) + CountWith(jobs, Processing) + CountWith(jobs, Completed) + CountWith(jobs, Error)
            == |jobs|
  {
    if |jobs| > 0 {
      Lists.CountCons(HasStatus(Pending), jobs);
      Lists.CountCons(HasStatus(Processing), jobs);
      Lists.CountCons(HasStatus(Completed), jobs);
      Lists.CountCons(HasStatus(Error), jobs);
      CountersCoverQueue(jobs[1..]);
    }
  }

  // ---------------------------------------------------------------- elapsed time

  /** JavaScript's `%`: the remainder takes the sign of the dividend. */
  function JsRem(a: int, d: int): (r: int)
    requires d > 0
    ensures a >= 0 ==> 0 <= r < d
    ensures a < 0 ==> -d < r <= 0
    ensures exists q :: a == q * d + r
  {
    if a >= 0 then
      assert a == (a / d) * d + a % d;
      a % d
    else
      var q := (-a) / d;
      assert a == (-q) * d + -((-a) % d);
      -((-a) % d)
  }

  /** `Math.floor(ms / 60000)`; for a positive divisor Dafny's `/` is the floor. */
  function ElapsedMinutes(ms: int): int {
    ms / 60000
  }

  /** `Math.floor((ms % 60000) / 1000)`. */
  function ElapsedSeconds(ms: int): (r: int)
    ensures -60 <= r < 60
    ensures ms >= 0 ==> 0 <= r
  {
    JsRem(ms, 60000) / 1000
  }

  /** `getTimeElapsed`: "Xm Ys" when at least a minute has passed, otherwise "Ys". */
  function TimeElapsed(ms: int): (r: string)
    ensures ElapsedMinutes(ms) > 0 ==>
              r == Text.IntToString(ElapsedMinutes(ms)) + "m " + Text.IntToString(ElapsedSeconds(ms)) + "s"
    ensures ElapsedMinutes(ms) <= 0 ==> r == Text.IntToString(ElapsedSeconds(ms)) + "s"
  {
    var m := ElapsedMinutes(ms);
    var s := ElapsedSeconds(ms);
    if m > 0 then Text.IntToString(m) + "m " + Text.IntToString(s) + "s"
    else Text.IntToString(s) + "s"
  }

  /** For a non-negative span the two parts recompose the whole seconds elapsed. */
  lemma ElapsedRecomposes(ms: int)
    requires ms >= 0
    ensures 0 <= ElapsedSeconds(ms) < 60
    ensures ElapsedMinutes(ms) * 60 + ElapsedSeconds(ms) == ms / 1000
  {
    var m := ms / 60000;
    var rest := ms % 60000;
    assert ms == m * 60000 + rest;
    assert ms / 1000 == m * 60 + rest / 1000;
  }

  /** The label mentions minutes exactly when at least one whole minute has passed. */
  lemma MinutesShownIff(ms: int)
    ensures 'm' in TimeElapsed(ms) <==> ElapsedMinutes(ms) > 0
  {
    var m := ElapsedMinutes(ms);
    var s := ElapsedSeconds(ms);
    DigitsHaveNoM(s);
    if m > 0 {
      var r := Text.IntToString(m) + "m " + Text.IntToString(s) + "s";
      assert r[|Text.IntToString(m)|] == 'm';
    } else {
      var r := Text.IntToString(s) + "s";
      assert forall k :: 0 <= k < |r| ==> r[k] != 'm';
    }
  }

  lemma DigitsHaveNoM(i: int)
    ensures 'm' !in Text.IntToString(i)
  {
    var r := Text.IntToString(i);
    assert forall k :: 0 <= k < |r| ==> r[k] != 'm';
  }
}
