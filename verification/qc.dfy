/**
 * AssureQC: the quality check run on the selected asset and the overall
 * verdict aggregated from the individual results.
 */
module Qc {

  import opened Wrappers
  import Types

  datatype QcStatus = Passed | Warning | Failed

  datatype QcResult = QcResult(
    id: string, name: string, status: QcStatus, description: string, details: string, timestamp: int)

  /** `duration` is the asset's duration in seconds, 0 when it has none. */
  datatype QcReport = QcReport(
    assetId: string, overallStatus: QcStatus, results: seq<QcResult>, generatedAt: int, duration: nat)

  /** The six check boxes; ticking them has no effect on the run. */
  datatype CheckSelection = CheckSelection(
    loudness: bool, blackFrames: bool, pixelation: bool, macroblocks: bool, captions: bool, compliance: bool)

  /** Severity order: passed < warning < failed. */
  function Severity(s: QcStatus): nat {
    match s
    case Passed => 0
    case Warning => 1
    case Failed => 2
  }

  predicate SomeWithStatus(results: seq<QcResult>, s: QcStatus) {
    exists k :: 0 <= k < |results| && results[k].status == s
  }

  /** The verdict: failed if any result failed, else warning if any warned, else passed. */
  function Overall(results: seq<QcResult>): (r: QcStatus)
    ensures r == Failed <==> SomeWithStatus(results, Failed)
    ensures r == Warning <==> !SomeWithStatus(results, Failed) && SomeWithStatus(results, Warning)
    ensures r == Passed <==> forall k :: 0 <= k < |results| ==> results[k].status == Passed
  {
    if SomeWithStatus(results, Failed) then Failed
    else if SomeWithStatus(results, Warning) then Warning
    else Passed
  }

  /** The verdict is the most severe result, and passed for no results. */
  lemma OverallIsMaximum(results: seq<QcResult>)
    ensures forall k :: 0 <= k < |results| ==> Severity(results[k].status) <= Severity(Overall(results))
    ensures |results| > 0 ==> exists k :: 0 <= k < |results| && results[k].status == Overall(results)
    ensures |results| == 0 ==> Overall(results) == Passed
  {
    if |results| > 0 && Overall(results) == Passed {
      assert results[0].status == Passed;
    }
  }

  /** One more result never makes the verdict less severe. */
  lemma AddingNeverLowers(results: seq<QcResult>, extra: QcResult)
    ensures Severity(Overall(results)) <= Severity(Overall(results + [extra]))
    ensures Severity(extra.status) <= Severity(Overall(results + [extra]))
  {
    var more := results + [extra];
    if SomeWithStatus(results, Failed) {
      var k :| 0 <= k < |results| && results[k].status == Failed;
      assert more[k] == results[k];
    } else if SomeWithStatus(results, Warning) {
      var k :| 0 <= k < |results| && results[k].status == Warning;
      assert more[k] == results[k];
    }
    assert more[|results|] == extra;
  }

  /** A check's outcome before it is stamped with the run's clock. */
  datatype Outcome = Outcome(id: string, name: string, status: QcStatus, description: string, details: string)

  /** The six outcomes every run reports, whichever checks are ticked. */
  const Outcomes: seq<Outcome> := [
    Outcome("1", "Loudness Analysis", Passed, "Audio levels within acceptable range",
            "Integrated loudness: -23.1 LUFS (Target: -23.0 \U{B1} 0.5 LUFS)"),
    Outcome("2", "Black Frame Detection", Warning, "Minor black frames detected",
            "3 black frames found at 0:15, 0:45, 1:20 (within tolerance)"),
    Outcome("3", "Pixelation Detection", Passed, "No significant pixelation detected",
            "Compression quality: 95% (Threshold: 90%)"),
    Outcome("4", "Macroblock Detection", Passed, "No macroblocks detected",
            "Encoding quality: Excellent"),
    Outcome("5", "Caption Compliance", Failed, "Missing required captions",
            "No closed captions found (Required for accessibility)"),
    Outcome("6", "Broadcast Compliance", Passed, "Meets broadcast standards",
            "Resolution: 1920x1080, Frame Rate: 30fps, Codec: H.264")
  ]

  /** The six results of a run: the fixed outcomes, in order, stamped with the run's clock. */
  function RunResults(now: int): (r: seq<QcResult>)
    ensures |r| == |Outcomes|
    ensures forall k :: 0 <= k < |r| ==> r[k].timestamp == now
    ensures forall k :: 0 <= k < |r| ==>
              var o := Outcomes[k];
              r[k] == QcResult(o.id, o.name, o.status, o.description, o.details, now)
  {
    seq(|Outcomes|, k requires 0 <= k < |Outcomes| =>
          QcResult(Outcomes[k].id, Outcomes[k].name, Outcomes[k].status, Outcomes[k].description, Outcomes[k].details, now))
  }

  /**
   * `runQualityCheck`: without an asset the report is left as it was; otherwise
   * a report for the asset with the aggregated verdict and the asset's duration
   * (absent and 0 both read as 0).
   */
  function RunQualityCheck(report: Option<QcReport>, selectedAsset: Option<Types.Asset>,
                           checks: CheckSelection, now: int): (r: Option<QcReport>)
    ensures selectedAsset.None? ==> r == report
    ensures selectedAsset.Some? ==> r.Some? && r.value.assetId == selectedAsset.value.id
    ensures selectedAsset.Some? ==> r.value.results == RunResults(now) && r.value.generatedAt == now
    ensures selectedAsset.Some? ==> r.value.overallStatus == Overall(r.value.results)
    ensures selectedAsset.Some? ==> r.value.duration == selectedAsset.value.duration.GetOr(0)
  {
    match selectedAsset
    case None => report
    case Some(a) =>
      var results := RunResults(now);
      Some(QcReport(a.id, Overall(results), results, now, a.duration.GetOr(0)))
  }

  /** The ticked checks play no part: any two selections give the same report. */
  lemma ChecksIgnored(report: Option<QcReport>, asset: Option<Types.Asset>, c1: CheckSelection, c2: CheckSelection, now: int)
    ensures RunQualityCheck(report, asset, c1, now) == RunQualityCheck(report, asset, c2, now)
  {
  }

  /** Because the caption check always fails, every report's verdict is failed. */
  lemma EveryRunFails(report: Option<QcReport>, asset: Types.Asset, checks: CheckSelection, now: int)
    ensures RunQualityCheck(report, Some(asset), checks, now).value.overallStatus == Failed
  {
    assert Outcomes[4].status == Failed;
    assert RunResults(now)[4].status == Failed;
  }
}
