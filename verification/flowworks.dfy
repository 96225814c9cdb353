/**
 * FlowWorks: starting a workflow from a template and the timer callbacks that
 * walk its steps. The steps advance by array position only; the
 * `dependencies` of a step are carried along but never consulted.
 */
module FlowWorks {

  import opened Wrappers
  import Types
  import Lists

  datatype StepKind = IngestStep | QcStep | TranscodeStep | DeliveryStep | ReviewStep | ApprovalStep
  datatype StepStatus = Pending | Running | Completed | Failed | Skipped
  datatype WorkflowStatus = WorkflowRunning | WorkflowCompleted | WorkflowFailed | WorkflowPaused
  datatype Category = Broadcast | Ott | Social | Custom

  /** Times are millisecond timestamps; `duration` is in seconds. */
  datatype WorkflowStep = WorkflowStep(
    id: string,
    name: string,
    description: string,
    kind: StepKind,
    status: StepStatus,
    duration: Option<nat>,
    startedAt: Option<int>,
    completedAt: Option<int>,
    output: Option<string>,
    dependencies: seq<string>)

  /** `estimatedDuration` is in minutes. */
  datatype Template = Template(
    id: string,
    name: string,
    description: string,
    steps: seq<WorkflowStep>,
    estimatedDuration: int,
    category: Category)

  /** `progress` is a percentage; it is fractional after some completions. */
  datatype ActiveWorkflow = ActiveWorkflow(
    id: string,
    name: string,
    assetId: string,
    templateId: string,
    steps: seq<WorkflowStep>,
    status: WorkflowStatus,
    progress: real,
    startedAt: int,
    estimatedCompletion: Option<int>,
    currentStep: Option<string>)

  /** The page state `startWorkflow` reads and writes. */
  datatype FlowState = FlowState(workflows: seq<ActiveWorkflow>, selectedTemplate: string, isStarting: bool)

  function HasId(id: string): Template -> bool {
    (t: Template) => t.id == id
  }

  /** `templates.find(t => t.id === id)`: the first template with that id. */
  function FindTemplate(templates: seq<Template>, id: string): Option<Template> {
    Lists.Find(templates, HasId(id))
  }

  /** A step reset to pending, every other field kept. */
  function AsPending(s: WorkflowStep): WorkflowStep {
    s.(status := Pending)
  }

  /**
   * The new workflow built one second after the start. A template without steps
   * makes the source throw while reading the first step's id, so there is none.
   */
  function Instantiate(asset: Types.Asset, t: Template, freshId: string, now: int): (r: Option<ActiveWorkflow>)
    ensures r.None? <==> |t.steps| == 0
    ensures r.Some? ==>
      var w := r.value;
      && w.id == freshId && w.assetId == asset.id && w.templateId == t.id
      && w.name == asset.originalName + " - " + t.name
      && |w.steps| == |t.steps|
      && (forall j :: 0 <= j < |w.steps| ==> w.steps[j] == AsPending(t.steps[j]))
      && w.status == WorkflowRunning && w.progress == 0.0
      && w.startedAt == now && w.estimatedCompletion == Some(now + t.estimatedDuration * 60000)
      && w.currentStep == Some(t.steps[0].id)
  {
    if |t.steps| == 0 then None
    else
      Some(ActiveWorkflow(
        freshId,
        asset.originalName + " - " + t.name,
        asset.id,
        t.id,
        seq(|t.steps|, j requires 0 <= j < |t.steps| => AsPending(t.steps[j])),
        WorkflowRunning,
        0.0,
        now,
        Some(now + t.estimatedDuration * 60000),
        Some(t.steps[0].id)))
  }

  /**
   * `startWorkflow` up to the moment the new workflow is listed. Nothing happens
   * without an asset, with an empty template id or with an unknown one; a
   * template without steps leaves the page stuck in the starting state.
   */
  function StartWorkflow(s: FlowState, selectedAsset: Option<Types.Asset>, templates: seq<Template>,
                         freshId: string, now: int): (r: FlowState)
    ensures selectedAsset.None? || s.selectedTemplate == "" || FindTemplate(templates, s.selectedTemplate).None? ==>
              r == s
    ensures selectedAsset.Some? && s.selectedTemplate != "" && FindTemplate(templates, s.selectedTemplate).Some? ==>
              var t := FindTemplate(templates, s.selectedTemplate).value;
              if |t.steps| == 0 then r == s.(isStarting := true)
              else
                && |r.workflows| == |s.workflows| + 1
                && r.workflows[1..] == s.workflows
                && Instantiate(selectedAsset.value, t, freshId, now) == Some(r.workflows[0])
                && r.selectedTemplate == "" && !r.isStarting
  {
    if selectedAsset.None? || s.selectedTemplate == "" then s
    else
      match FindTemplate(templates, s.selectedTemplate)
      case None => s
      case Some(t) =>
        match Instantiate(selectedAsset.value, t, freshId, now)
        case None => s.(isStarting := true)
        case Some(w) => FlowState([w] + s.workflows, "", false)
  }

  // ---------------------------------------------------------------- progression

  /** The timer callbacks scheduled by a start, in the order they fire. */
  datatype FlowEvent = StartFirst | CompleteAt(index: nat, now: int)

  predicate EventFits(t: Template, e: FlowEvent) {
    |t.steps| > 0 && (e.CompleteAt? ==> e.index < |t.steps|)
  }

  /** The step update of the completion callback for position `i`, matched by step id. */
  function CompleteStep(s: WorkflowStep, t: Template, i: nat, now: int): WorkflowStep
    requires i < |t.steps|
  {
    if s.id == t.steps[i].id then
      s.(status := Completed, startedAt := Some(now - (|t.steps| - i) * 60000), completedAt := Some(now))
    else if i + 1 < |t.steps| && s.id == t.steps[i + 1].id then s.(status := Running)
    else s
  }

  function StartStep(s: WorkflowStep, t: Template): WorkflowStep
    requires |t.steps| > 0
  {
    if s.id == t.steps[0].id then s.(status := Running) else s
  }

  /** What one callback does to the workflow it targets. */
  function Apply(w: ActiveWorkflow, t: Template, e: FlowEvent): (r: ActiveWorkflow)
    requires EventFits(t, e)
    ensures r.id == w.id && r.status == w.status && r.assetId == w.assetId && r.templateId == w.templateId
    ensures r.name == w.name && r.startedAt == w.startedAt && r.estimatedCompletion == w.estimatedCompletion
    ensures |r.steps| == |w.steps|
    ensures e.StartFirst? ==> forall j :: 0 <= j < |w.steps| ==>
              r.steps[j] == if w.steps[j].id == t.steps[0].id then w.steps[j].(status := Running) else w.steps[j]
    ensures e.CompleteAt? ==> forall j :: 0 <= j < |w.steps| ==>
              r.steps[j] ==
                if w.steps[j].id == t.steps[e.index].id then
                  w.steps[j].(status := Completed, startedAt := Some(e.now - (|t.steps| - e.index) * 60000),
                              completedAt := Some(e.now))
                else if e.index + 1 < |t.steps| && w.steps[j].id == t.steps[e.index + 1].id then
                  w.steps[j].(status := Running)
                else w.steps[j]
    ensures forall j :: 0 <= j < |w.steps| ==> r.steps[j].id == w.steps[j].id
    ensures forall j :: 0 <= j < |w.steps| ==> r.steps[j].dependencies == w.steps[j].dependencies
    ensures e.StartFirst? ==> r.progress == 10.0 && r.currentStep == Some(t.steps[0].id)
    ensures e.CompleteAt? ==> r.progress == (e.index + 1) as real / |t.steps| as real * 100.0
    ensures e.CompleteAt? ==>
              r.currentStep == if e.index + 1 < |t.steps| then Some(t.steps[e.index + 1].id) else None
  {
    match e
    case StartFirst =>
      w.(steps := seq(|w.steps|, j requires 0 <= j < |w.steps| => StartStep(w.steps[j], t)),
         progress := 10.0,
         currentStep := Some(t.steps[0].id))
    case CompleteAt(i, now) =>
      w.(steps := seq(|w.steps|, j requires 0 <= j < |w.steps| => CompleteStep(w.steps[j], t, i, now)),
         progress := (i + 1) as real / |t.steps| as real * 100.0,
         currentStep := if i + 1 < |t.steps| then Some(t.steps[i + 1].id) else None)
  }

  /** `prev.map(w => w.id === id ? update(w) : w)` for one callback. */
  function ApplyToList(ws: seq<ActiveWorkflow>, id: string, t: Template, e: FlowEvent): (r: seq<ActiveWorkflow>)
    requires EventFits(t, e)
    ensures |r| == |ws|
    ensures forall j :: 0 <= j < |ws| && ws[j].id != id ==> r[j] == ws[j]
    ensures forall j :: 0 <= j < |ws| && ws[j].id == id ==> r[j] == Apply(ws[j], t, e)
  {
    seq(|ws|, j requires 0 <= j < |ws| => if ws[j].id == id then Apply(ws[j], t, e) else ws[j])
  }

  /** The update reads only the step ids of the template: dependencies, names and kinds play no part. */
  lemma DependenciesNeverRead(w: ActiveWorkflow, t: Template, u: Template, e: FlowEvent)
    requires EventFits(t, e) && |u.steps| == |t.steps|
    requires forall j :: 0 <= j < |t.steps| ==> u.steps[j].id == t.steps[j].id
    ensures Apply(w, t, e) == Apply(w, u, e)
  {
  }

  // ---------------------------------------------------------------- a full run

  predicate DistinctIds(steps: seq<WorkflowStep>) {
    forall j, k :: 0 <= j < k < |steps| ==> steps[j].id != steps[k].id
  }

  /** The completion callbacks for positions 0 .. k-1, each at its own clock reading. */
  function CompleteFirst(w: ActiveWorkflow, t: Template, k: nat, clock: seq<int>): ActiveWorkflow
    requires k <= |t.steps| && |clock| >= k
    decreases k
  {
    if k == 0 then w
    else Apply(CompleteFirst(w, t, k - 1, clock), t, CompleteAt(k - 1, clock[k - 1]))
  }

  /** The status of step `j` once `k` steps are done: completed before `k`, running at `k`, pending after. */
  function StageStatus(k: nat, j: nat): StepStatus {
    if j < k then Completed else if j == k then Running else Pending
  }

  /** After the start callback and `k` completions: the first `k` steps are done, step `k` runs. */
  predicate Stage(w: ActiveWorkflow, t: Template, k: nat)
    requires k <= |t.steps|
  {
    && |w.steps| == |t.steps|
    && (forall j :: 0 <= j < |t.steps| ==> w.steps[j].id == t.steps[j].id && w.steps[j].status == StageStatus(k, j))
    && w.status == WorkflowRunning
  }

  lemma {:induction false} StagesAdvance(w: ActiveWorkflow, t: Template, k: nat, clock: seq<int>)
    requires 0 < |t.steps| && k <= |t.steps| && |clock| >= k && DistinctIds(t.steps)
    requires Stage(w, t, 0)
    ensures Stage(CompleteFirst(w, t, k, clock), t, k)
  {
    if k > 0 {
      StagesAdvance(w, t, k - 1, clock);
      NextStage(w, t, k, clock);
    }
  }

  /** One more completion callback moves the run from stage `k - 1` to stage `k`. */
  lemma NextStage(w: ActiveWorkflow, t: Template, k: nat, clock: seq<int>)
    requires 0 < k <= |t.steps| && |clock| >= k && DistinctIds(t.steps)
    requires Stage(CompleteFirst(w, t, k - 1, clock), t, k - 1)
    ensures Stage(CompleteFirst(w, t, k, clock), t, k)
  {
    var prev := CompleteFirst(w, t, k - 1, clock);
    CompletionAdvances(prev, t, k - 1, clock[k - 1]);
    assert CompleteFirst(w, t, k, clock) == Apply(prev, t, CompleteAt(k - 1, clock[k - 1]));
  }

  /** The completion callback for position `i` moves a workflow from stage `i` to stage `i + 1`. */
  lemma CompletionAdvances(prev: ActiveWorkflow, t: Template, i: nat, now: int)
    requires i < |t.steps| && DistinctIds(t.steps) && Stage(prev, t, i)
    ensures Stage(Apply(prev, t, CompleteAt(i, now)), t, i + 1)
  {
    var next := Apply(prev, t, CompleteAt(i, now));
    forall j | 0 <= j < |t.steps|
      ensures next.steps[j].status == StageStatus(i + 1, j)
    {
      assert next.steps[j] == CompleteStep(prev.steps[j], t, i, now);
      if j != i {
        assert prev.steps[j].id != t.steps[i].id;
      }
      if j != i + 1 && i + 1 < |t.steps| {
        assert prev.steps[j].id != t.steps[i + 1].id;
      }
    }
  }

  /**
   * A fresh workflow with distinct step ids, after the start callback and all
   * `n` completion callbacks: every step is completed and progress is 100,
   * there is no current step, and the status is still `running`.
   */
  lemma RunToEnd(asset: Types.Asset, t: Template, freshId: string, now: int, clock: seq<int>)
    requires |t.steps| > 0 && DistinctIds(t.steps) && |clock| >= |t.steps|
    ensures var w := CompleteFirst(Apply(Instantiate(asset, t, freshId, now).value, t, StartFirst), t, |t.steps|, clock);
      && (forall j :: 0 <= j < |w.steps| ==> w.steps[j].status == Completed)
      && |w.steps| == |t.steps|
      && w.progress == 100.0
      && w.currentStep.None?
      && w.status == WorkflowRunning
  {
    var w0 := Instantiate(asset, t, freshId, now).value;
    var w1 := Apply(w0, t, StartFirst);
    StartIsStageZero(w0, t);
    var n := |t.steps|;
    StagesAdvance(w1, t, n, clock);
    var last := CompleteFirst(w1, t, n, clock);
    assert last == Apply(CompleteFirst(w1, t, n - 1, clock), t, CompleteAt(n - 1, clock[n - 1]));
    FullProgress(n);
    assert forall j :: 0 <= j < n ==> StageStatus(n, j) == Completed;
  }

  /** The start callback on a freshly built workflow marks the first step running and leaves the rest pending. */
  lemma StartIsStageZero(w0: ActiveWorkflow, t: Template)
    requires |t.steps| > 0 && DistinctIds(t.steps)
    requires |w0.steps| == |t.steps| && w0.status == WorkflowRunning
    requires forall j :: 0 <= j < |t.steps| ==> w0.steps[j] == AsPending(t.steps[j])
    ensures Stage(Apply(w0, t, StartFirst), t, 0)
  {
    var w1 := Apply(w0, t, StartFirst);
    forall j | 0 <= j < |t.steps| ensures w1.steps[j].status == StageStatus(0, j) {
      assert w1.steps[j] == StartStep(w0.steps[j], t);
    }
  }

  lemma FullProgress(n: nat)
    requires n > 0
    ensures ((n - 1) + 1) as real / n as real * 100.0 == 100.0
  {
    assert ((n - 1) + 1) as real == n as real;
  }

  /**
   * The first completion follows the start callback's fixed 10%: progress does
   * not drop there exactly when the template has at most ten steps.
   */
  lemma FirstCompletionAfterStart(w: ActiveWorkflow, t: Template, now: int)
    requires |t.steps| > 0
    ensures Apply(w, t, StartFirst).progress <= Apply(Apply(w, t, StartFirst), t, CompleteAt(0, now)).progress
            <==> |t.steps| <= 10
  {
    var n := |t.steps| as real;
    assert (0 + 1) as real / n * 100.0 == 100.0 / n;
    if |t.steps| <= 10 {
      assert 100.0 / n >= 100.0 / 10.0;
    } else {
      assert 100.0 / n < 100.0 / 10.0;
    }
  }

  /** Each callback's progress stays within 0 to 100 and grows from one completion to the next. */
  lemma ProgressBounded(w: ActiveWorkflow, t: Template, i: nat, now: int, later: int)
    requires i + 1 < |t.steps|
    ensures 0.0 < Apply(w, t, CompleteAt(i, now)).progress < Apply(w, t, CompleteAt(i + 1, later)).progress <= 100.0
  {
    ShareGrows((i + 1) as real, (i + 2) as real, |t.steps| as real);
  }

  /** Of `n` steps, `a` done is a smaller share than `b` done, and neither share exceeds 100. */
  lemma ShareGrows(a: real, b: real, n: real)
    requires 0.0 < a < b <= n
    ensures 0.0 < a / n * 100.0 < b / n * 100.0 <= 100.0
  {
    assert b / n - a / n == (b - a) / n;
    assert n / n == 1.0;
    assert n / n - b / n == (n - b) / n;
  }
}
