// Phase 5, `Orchestrator::run_phase_5_workers`: the stages run one after the other, all workers of
// a stage on the same context, and every later worker sees the outcome lines of the earlier stages.
module Develop {
  import opened Text
  import TextLaws
  import opened Staging
  import opened StagingTheorems
  import StagingUniqueness
  import AgentLoop
  import opened AgentRuns
  import opened Candidates
  import opened AgentReports

  /** The context block of a worker: stage number, number of stages, and the lines gathered so far. */
  datatype UpstreamContext = UpstreamContext(stage: nat, stageCount: nat, lines: seq<string>)

  /** What one worker is started with. */
  datatype Launch = Launch(task: nat, repairContext: Option<string>, context: Option<UpstreamContext>)

  /** The plan as Phase 5 reads it. */
  datatype Plan = Plan(architecture: string, tasks: seq<WorkerTask>)

  const ARCHITECTURE_HEADING := "系统整体架构:\n"

  function ArchitectureLines(plan: Plan): seq<string> {
    if plan.architecture == "" then [] else [ARCHITECTURE_HEADING + plan.architecture]
  }

  /** A worker's line in the context of later stages. Texts stand for their UTF-8 bytes. */
  function OutcomeLine(t: WorkerTask, o: TaskOutcome): string {
    var detail := match o.summary
      case Some(s) => s
      case None => if |o.text| > 300 then o.text[..300] else o.text;
    "- [" + t.title + "] " + o.status + ": " + detail
  }

  /** The cut falls inside a character: on a continuation byte of UTF-8. */
  predicate SplitsCharacter(o: TaskOutcome) {
    o.summary.None? && CutsCharacter(o.text, 300)
  }

  /** The attempt ends without a summary: it timed out, or the channel closed before a done event. */
  predicate EndsWithoutSummary(a: Attempt) {
    if Interrupted(a) then a.race.TimedOutAfter? else !EndsDone(ReceivedBy(a))
  }

  predicate StrandsCharacter(a: Attempt) {
    EndsWithoutSummary(a) && CutsCharacter(AgentLoop.AllText(ReceivedBy(a)), 300)
  }

  /** So the code panics on an outcome iff its last attempt ended without a summary, with such a text. */
  lemma CutSplitsCharacterIff(run: AgentRun)
    ensures SplitsCharacter(OutcomeOf(run)) <==> IsTried(run) && StrandsCharacter(run.attempts(TriedCount(run) - 1))
  {
    if IsTried(run) {
      var last := OutcomeIsLastResult(run);
    }
  }

  function LaunchOf(stage: nat, stageCount: nat, i: nat, repairContext: Option<string>, lines: seq<string>): Launch {
    Launch(i, repairContext, if lines == [] then None else Some(UpstreamContext(stage + 1, stageCount, lines)))
  }

  /** The workers of a stage, all started with the lines gathered before it. */
  function StageReports(
    stage: seq<nat>, k: nat, stageCount: nat, repairContext: Option<string>, lines: seq<string>,
    worker: Launch -> Report): (reports: seq<Report>)
    ensures |reports| == |stage|
  {
    seq<Report>(|stage|, p requires 0 <= p < |stage| => worker(LaunchOf(k, stageCount, stage[p], repairContext, lines)))
  }

  function OutcomesOf(reports: seq<Report>): (outcomes: seq<TaskOutcome>)
    ensures |outcomes| == |reports|
  {
    seq(|reports|, p requires 0 <= p < |reports| => reports[p].outcome)
  }

  /** No outcome is cut inside a character. */
  predicate NoneSplits(reports: seq<Report>) {
    forall p :: 0 <= p < |reports| ==> !SplitsCharacter(reports[p].outcome)
  }

  ghost predicate HoldTasks(tasks: seq<WorkerTask>, stages: seq<seq<nat>>) {
    forall m, p :: 0 <= m < |stages| && 0 <= p < |stages[m]| ==> stages[m][p] < |tasks|
  }

  /** The lines a worker of stage `k` sees: the architecture, then one line per earlier task. */
  ghost function LinesBefore(
    plan: Plan, stages: seq<seq<nat>>, k: nat, repairContext: Option<string>, worker: Launch -> Report)
    : seq<string>
    requires k <= |stages|
    requires HoldTasks(plan.tasks, stages)
  {
    if k == 0 then ArchitectureLines(plan)
    else
      var before := LinesBefore(plan, stages, k - 1, repairContext, worker);
      var reports := StageReports(stages[k - 1], k - 1, |stages|, repairContext, before, worker);
      before + OutcomeLines(plan.tasks, stages[k - 1], OutcomesOf(reports))
  }

  function OutcomeLines(tasks: seq<WorkerTask>, stage: seq<nat>, outcomes: seq<TaskOutcome>): (lines: seq<string>)
    requires |outcomes| == |stage|
    requires forall p :: 0 <= p < |stage| ==> stage[p] < |tasks|
  {
    seq(|stage|, p requires 0 <= p < |stage| => OutcomeLine(tasks[stage[p]], outcomes[p]))
  }

  /** The outcome of task `i` when it runs in stage `k`. */
  ghost function OutcomeIn(
    plan: Plan, stages: seq<seq<nat>>, k: nat, i: nat, repairContext: Option<string>, worker: Launch -> Report)
    : TaskOutcome
    requires k < |stages|
    requires HoldTasks(plan.tasks, stages)
  {
    worker(LaunchOf(k, |stages|, i, repairContext, LinesBefore(plan, stages, k, repairContext, worker))).outcome
  }

  /** The workers of the first `k` stages, stage by stage. */
  ghost function ReportsBefore(
    plan: Plan, stages: seq<seq<nat>>, k: nat, repairContext: Option<string>, worker: Launch -> Report)
    : seq<seq<Report>>
    requires k <= |stages|
    requires HoldTasks(plan.tasks, stages)
  {
    if k == 0 then []
    else
      var before := LinesBefore(plan, stages, k - 1, repairContext, worker);
      ReportsBefore(plan, stages, k - 1, repairContext, worker)
      + [StageReports(stages[k - 1], k - 1, |stages|, repairContext, before, worker)]
  }

  /** The signals of the workers: stage after stage, in any order within a stage. */
  function SentByStages(reports: seq<seq<Report>>, schedule: nat -> seq<nat>): seq<Signal> {
    if reports == [] then []
    else
      var n := |reports| - 1;
      SentByStages(reports[..n], schedule) + Interleave(Sents(reports[n]), schedule(n))
  }

  function Present(slots: seq<Option<TaskOutcome>>): seq<TaskOutcome> {
    if slots == [] then []
    else
      var rest := Present(slots[1..]);
      match slots[0]
      case Some(o) => [o] + rest
      case None => rest
  }

  /** Stages `0..ran` ran and the others did not. */
  ghost predicate SlotsAfter(
    plan: Plan, stages: seq<seq<nat>>, ran: nat, repairContext: Option<string>, worker: Launch -> Report,
    slots: seq<Option<TaskOutcome>>)
    requires ran <= |stages|
    requires HoldTasks(plan.tasks, stages)
  {
    && |slots| == |plan.tasks|
    && (forall m, p :: 0 <= m < ran && 0 <= p < |stages[m]| ==>
          slots[stages[m][p]] == Some(OutcomeIn(plan, stages, m, stages[m][p], repairContext, worker)))
    && (forall i :: 0 <= i < |slots| && i !in Placed(stages, ran) ==> slots[i] == None)
  }

  /** The code panics on collecting stage `k`: one of its outcomes is cut inside a character. */
  ghost predicate PanicsIn(
    plan: Plan, stages: seq<seq<nat>>, k: nat, repairContext: Option<string>, worker: Launch -> Report)
    requires k < |stages|
    requires HoldTasks(plan.tasks, stages)
  {
    exists p :: 0 <= p < |stages[k]|
      && SplitsCharacter(OutcomeIn(plan, stages, k, stages[k][p], repairContext, worker))
  }

  /** Cancellation is looked at before each stage; `ran` stages got past it. */
  ghost predicate RanStages(stageCount: nat, cancelled: nat -> bool, ran: nat) {
    && ran <= stageCount
    && (forall k :: 0 <= k < ran ==> !cancelled(k))
    && (ran < stageCount ==> cancelled(ran))
  }

  /** The stages, how many of them ran, and the slots they filled. */
  ghost predicate Develops(
    plan: Plan, repairContext: Option<string>, worker: Launch -> Report, cancelled: nat -> bool,
    stages: seq<seq<nat>>, ran: nat, slots: seq<Option<TaskOutcome>>)
  {
    && IsStaging(plan.tasks, stages) && HoldTasks(plan.tasks, stages)
    && RanStages(|stages|, cancelled, ran)
    && (forall k :: 0 <= k < ran ==> !PanicsIn(plan, stages, k, repairContext, worker))
    && SlotsAfter(plan, stages, ran, repairContext, worker, slots)
  }

  /** `results` is what Phase 5 returns and `reports` are its workers, stage by stage. */
  ghost predicate IsDevelopment(
    plan: Plan, repairContext: Option<string>, worker: Launch -> Report, cancelled: nat -> bool,
    results: seq<TaskOutcome>, reports: seq<seq<Report>>)
  {
    exists stages, ran, slots ::
      && Develops(plan, repairContext, worker, cancelled, stages, ran, slots)
      && results == Present(slots)
      && reports == ReportsBefore(plan, stages, ran, repairContext, worker)
  }

  /** The stages before `last` are collected, and collecting stage `last` panics. */
  ghost predicate BreaksOff(
    plan: Plan, repairContext: Option<string>, worker: Launch -> Report, cancelled: nat -> bool,
    stages: seq<seq<nat>>, last: nat)
  {
    && IsStaging(plan.tasks, stages) && HoldTasks(plan.tasks, stages)
    && last < |stages|
    && (forall k :: 0 <= k <= last ==> !cancelled(k))
    && (forall k :: 0 <= k < last ==> !PanicsIn(plan, stages, k, repairContext, worker))
    && PanicsIn(plan, stages, last, repairContext, worker)
  }

  /** Phase 5 panics, and `reports` are the workers that ran until then, stage by stage. */
  ghost predicate IsPanic(
    plan: Plan, repairContext: Option<string>, worker: Launch -> Report, cancelled: nat -> bool,
    reports: seq<seq<Report>>)
  {
    exists stages: seq<seq<nat>>, last: nat ::
      && BreaksOff(plan, repairContext, worker, cancelled, stages, last)
      && reports == ReportsBefore(plan, stages, last + 1, repairContext, worker)
  }

  lemma StagesHoldTasks(tasks: seq<WorkerTask>, stages: seq<seq<nat>>)
    requires IsStaging(tasks, stages)
    ensures HoldTasks(tasks, stages)
  {
    forall m, p | 0 <= m < |stages| && 0 <= p < |stages[m]|
      ensures stages[m][p] < |tasks|
    {
      assert WellFormedStage(tasks, stages, m);
      assert stages[m][p] in stages[m];
    }
  }

  /**
   * `worker` is any behaviour of the agents and `cancelled(k)` whether the token is found cancelled
   * before stage `k`; `schedule(k)` is the order in which its workers send their signals. The result
   * lists the outcomes of the stages that ran, by task index. There is none if the code panics.
   */
  method RunPhase5Workers(
    plan: Plan, repairContext: Option<string>, worker: Launch -> Report, cancelled: nat -> bool,
    schedule: nat -> seq<nat>)
    returns (results: Option<seq<TaskOutcome>>, reports: seq<seq<Report>>, sent: seq<Signal>)
    ensures results.Some? ==> IsDevelopment(plan, repairContext, worker, cancelled, results.value, reports)
    ensures results.None? ==> IsPanic(plan, repairContext, worker, cancelled, reports)
    ensures sent == SentByStages(reports, schedule)
  {
    var stages := PartitionTasksIntoStages(plan.tasks);
    StagesHoldTasks(plan.tasks, stages);
    var allResults: seq<Option<TaskOutcome>> := seq(|plan.tasks|, _ => None);
    var upstreamContext := ArchitectureLines(plan);
    var stageIdx := 0;
    reports, sent := [], [];
    NothingRan(plan, stages, repairContext, worker, schedule, allResults);
    while stageIdx < |stages| && !cancelled(stageIdx)
      invariant stageIdx <= |stages|
      invariant forall k :: 0 <= k < stageIdx ==> !cancelled(k)
      invariant Progress(plan, stages, stageIdx, repairContext, worker, schedule, upstreamContext, allResults, reports, sent)
    {
      var panicked;
      panicked, upstreamContext, allResults, reports, sent := RunStage(
        plan, stages, stageIdx, repairContext, worker, cancelled, schedule, upstreamContext, allResults, reports, sent);
      if panicked {
        return None, reports, sent;
      }
      stageIdx := stageIdx + 1;
    }
    results := Some(Present(allResults));
    DevelopsIsDevelopment(plan, repairContext, worker, cancelled, stages, stageIdx, allResults);
  }

  /** The first `k` stages ran: the lines, slots and reports they leave. */
  ghost predicate Progress(
    plan: Plan, stages: seq<seq<nat>>, k: nat, repairContext: Option<string>, worker: Launch -> Report,
    schedule: nat -> seq<nat>, lines: seq<string>, slots: seq<Option<TaskOutcome>>, reports: seq<seq<Report>>,
    sent: seq<Signal>)
    requires k <= |stages| && HoldTasks(plan.tasks, stages)
  {
    && lines == LinesBefore(plan, stages, k, repairContext, worker)
    && (forall m :: 0 <= m < k ==> !PanicsIn(plan, stages, m, repairContext, worker))
    && SlotsAfter(plan, stages, k, repairContext, worker, slots)
    && reports == ReportsBefore(plan, stages, k, repairContext, worker)
    && |reports| == k && sent == SentByStages(reports, schedule)
  }

  lemma NothingRan(
    plan: Plan, stages: seq<seq<nat>>, repairContext: Option<string>, worker: Launch -> Report,
    schedule: nat -> seq<nat>, slots: seq<Option<TaskOutcome>>)
    requires HoldTasks(plan.tasks, stages)
    requires |slots| == |plan.tasks| && forall i :: 0 <= i < |slots| ==> slots[i] == None
    ensures Progress(plan, stages, 0, repairContext, worker, schedule, ArchitectureLines(plan), slots, [], [])
  {
  }

  lemma StageProgress(
    plan: Plan, stages: seq<seq<nat>>, k: nat, repairContext: Option<string>, worker: Launch -> Report,
    schedule: nat -> seq<nat>, lines: seq<string>, slots: seq<Option<TaskOutcome>>, reports: seq<seq<Report>>,
    sent: seq<Signal>, stage: seq<Report>, stageSent: seq<Signal>, lines': seq<string>, slots': seq<Option<TaskOutcome>>)
    requires IsStaging(plan.tasks, stages) && HoldTasks(plan.tasks, stages) && k < |stages|
    requires Progress(plan, stages, k, repairContext, worker, schedule, lines, slots, reports, sent)
    requires stageSent == Interleave(Sents(stage), schedule(k))
    requires stage == StageReports(stages[k], k, |stages|, repairContext, lines, worker)
    requires NoneSplits(stage)
    requires Collected(plan.tasks, stages[k], OutcomesOf(stage), lines, slots, lines', slots')
    ensures Progress(plan, stages, k + 1, repairContext, worker, schedule,
      lines', slots', reports + [stage], sent + stageSent)
  {
    SentSnoc(reports, stage, schedule);
    NextLinesAndReports(plan, stages, k, repairContext, worker, lines, stage, reports);
    SlotsCollected(plan, stages, k, repairContext, worker, stage, lines, slots, lines', slots');
    PanicIsInReports(plan, stages, k, repairContext, worker);
  }

  lemma SlotsCollected(
    plan: Plan, stages: seq<seq<nat>>, k: nat, repairContext: Option<string>, worker: Launch -> Report,
    stage: seq<Report>, lines: seq<string>, slots: seq<Option<TaskOutcome>>,
    lines': seq<string>, slots': seq<Option<TaskOutcome>>)
    requires IsStaging(plan.tasks, stages) && HoldTasks(plan.tasks, stages) && k < |stages|
    requires SlotsAfter(plan, stages, k, repairContext, worker, slots) && |stage| == |stages[k]|
    requires forall p :: 0 <= p < |stage| ==>
      stage[p].outcome == OutcomeIn(plan, stages, k, stages[k][p], repairContext, worker)
    requires Collected(plan.tasks, stages[k], OutcomesOf(stage), lines, slots, lines', slots')
    ensures SlotsAfter(plan, stages, k + 1, repairContext, worker, slots')
  {
    SlotsAfterNext(plan, stages, k, repairContext, worker, slots, slots');
  }

  lemma NextLinesAndReports(
    plan: Plan, stages: seq<seq<nat>>, k: nat, repairContext: Option<string>, worker: Launch -> Report,
    lines: seq<string>, stage: seq<Report>, reports: seq<seq<Report>>)
    requires HoldTasks(plan.tasks, stages) && k < |stages|
    requires lines == LinesBefore(plan, stages, k, repairContext, worker)
    requires stage == StageReports(stages[k], k, |stages|, repairContext, lines, worker)
    requires reports == ReportsBefore(plan, stages, k, repairContext, worker)
    ensures lines + OutcomeLines(plan.tasks, stages[k], OutcomesOf(stage))
      == LinesBefore(plan, stages, k + 1, repairContext, worker)
    ensures reports + [stage] == ReportsBefore(plan, stages, k + 1, repairContext, worker)
    ensures forall p :: 0 <= p < |stage| ==>
      stage[p].outcome == OutcomeIn(plan, stages, k, stages[k][p], repairContext, worker)
  {
  }

  /** Whether collecting a stage panics shows in the reports of its workers. */
  lemma PanicIsInReports(
    plan: Plan, stages: seq<seq<nat>>, k: nat, repairContext: Option<string>, worker: Launch -> Report)
    requires k < |stages| && HoldTasks(plan.tasks, stages)
    ensures
      var reports := StageReports(
        stages[k], k, |stages|, repairContext, LinesBefore(plan, stages, k, repairContext, worker), worker);
      PanicsIn(plan, stages, k, repairContext, worker) <==> !NoneSplits(reports)
  {
    var lines := LinesBefore(plan, stages, k, repairContext, worker);
    var reports := StageReports(stages[k], k, |stages|, repairContext, lines, worker);
    forall p | 0 <= p < |reports|
      ensures reports[p].outcome == OutcomeIn(plan, stages, k, stages[k][p], repairContext, worker)
    {
    }
  }

  lemma StagePanics(
    plan: Plan, stages: seq<seq<nat>>, k: nat, repairContext: Option<string>, worker: Launch -> Report,
    cancelled: nat -> bool, schedule: nat -> seq<nat>, lines: seq<string>, slots: seq<Option<TaskOutcome>>,
    reports: seq<seq<Report>>, sent: seq<Signal>, stage: seq<Report>)
    requires IsStaging(plan.tasks, stages) && HoldTasks(plan.tasks, stages) && k < |stages|
    requires forall m :: 0 <= m <= k ==> !cancelled(m)
    requires Progress(plan, stages, k, repairContext, worker, schedule, lines, slots, reports, sent)
    requires stage == StageReports(stages[k], k, |stages|, repairContext, lines, worker) && !NoneSplits(stage)
    ensures IsPanic(plan, repairContext, worker, cancelled, reports + [stage])
    ensures SentByStages(reports + [stage], schedule) == sent + Interleave(Sents(stage), schedule(k))
  {
    SentSnoc(reports, stage, schedule);
    PanicIsInReports(plan, stages, k, repairContext, worker);
    assert BreaksOff(plan, repairContext, worker, cancelled, stages, k);
    assert reports + [stage] == ReportsBefore(plan, stages, k + 1, repairContext, worker);
  }

  lemma DevelopsIsDevelopment(
    plan: Plan, repairContext: Option<string>, worker: Launch -> Report, cancelled: nat -> bool,
    stages: seq<seq<nat>>, ran: nat, slots: seq<Option<TaskOutcome>>)
    requires Develops(plan, repairContext, worker, cancelled, stages, ran, slots)
    ensures IsDevelopment(plan, repairContext, worker, cancelled, Present(slots),
      ReportsBefore(plan, stages, ran, repairContext, worker))
  {
  }

  lemma SentSnoc(reports: seq<seq<Report>>, stage: seq<Report>, schedule: nat -> seq<nat>)
    ensures SentByStages(reports + [stage], schedule)
      == SentByStages(reports, schedule) + Interleave(Sents(stage), schedule(|reports|))
  {
    assert (reports + [stage])[..|reports|] == reports;
  }

  /** Runs the workers of one stage at the same time and collects their outcomes. */
  method RunStage(
    plan: Plan, stages: seq<seq<nat>>, k: nat, repairContext: Option<string>, worker: Launch -> Report,
    ghost cancelled: nat -> bool, schedule: nat -> seq<nat>,
    lines: seq<string>, slots: seq<Option<TaskOutcome>>, reports: seq<seq<Report>>, sent: seq<Signal>)
    returns (
      panicked: bool, lines': seq<string>, slots': seq<Option<TaskOutcome>>, reports': seq<seq<Report>>,
      sent': seq<Signal>)
    requires IsStaging(plan.tasks, stages) && HoldTasks(plan.tasks, stages) && k < |stages|
    requires forall m :: 0 <= m <= k ==> !cancelled(m)
    requires Progress(plan, stages, k, repairContext, worker, schedule, lines, slots, reports, sent)
    ensures panicked ==> IsPanic(plan, repairContext, worker, cancelled, reports')
    ensures !panicked ==>
      Progress(plan, stages, k + 1, repairContext, worker, schedule, lines', slots', reports', sent')
    ensures sent' == SentByStages(reports', schedule)
  {
    var stage := StageReports(stages[k], k, |stages|, repairContext, lines, worker);
    assert WellFormedStage(plan.tasks, stages, k);
    reports', sent' := reports + [stage], sent + Interleave(Sents(stage), schedule(k));
    panicked, lines', slots' := CollectStage(plan.tasks, stages[k], OutcomesOf(stage), lines, slots);
    SplitsAmong(stage);
    if panicked {
      StagePanics(plan, stages, k, repairContext, worker, cancelled, schedule, lines, slots, reports, sent, stage);
    } else {
      StageProgress(plan, stages, k, repairContext, worker, schedule,
        lines, slots, reports, sent, stage, Interleave(Sents(stage), schedule(k)), lines', slots');
    }
  }

  lemma SplitsAmong(reports: seq<Report>)
    ensures NoneSplits(reports)
      <==> !exists p :: 0 <= p < |OutcomesOf(reports)| && SplitsCharacter(OutcomesOf(reports)[p])
  {
    if p :| 0 <= p < |reports| && SplitsCharacter(reports[p].outcome) {
      assert SplitsCharacter(OutcomesOf(reports)[p]);
    }
  }

  /** The outcomes of a stage are in their tasks' slots and their lines behind the others. */
  ghost predicate Collected(
    tasks: seq<WorkerTask>, stage: seq<nat>, outcomes: seq<TaskOutcome>,
    lines: seq<string>, slots: seq<Option<TaskOutcome>>, lines': seq<string>, slots': seq<Option<TaskOutcome>>)
    requires |outcomes| == |stage| && |slots| == |tasks|
    requires forall p :: 0 <= p < |stage| ==> stage[p] < |tasks|
  {
    && lines' == lines + OutcomeLines(tasks, stage, outcomes)
    && |slots'| == |slots|
    && (forall p :: 0 <= p < |stage| ==> slots'[stage[p]] == Some(outcomes[p]))
    && (forall i :: 0 <= i < |slots| && i !in stage ==> slots'[i] == slots[i])
  }

  /**
   * Stores the outcomes of one finished stage and appends their lines, in the order of the stage, up to
   * the first that cannot be cut.
   */
  method CollectStage(
    tasks: seq<WorkerTask>, stage: seq<nat>, outcomes: seq<TaskOutcome>, lines: seq<string>,
    slots: seq<Option<TaskOutcome>>)
    returns (panicked: bool, lines': seq<string>, slots': seq<Option<TaskOutcome>>)
    requires |outcomes| == |stage| && |slots| == |tasks| && Increasing(stage)
    requires forall p :: 0 <= p < |stage| ==> stage[p] < |tasks|
    ensures panicked <==> exists p :: 0 <= p < |outcomes| && SplitsCharacter(outcomes[p])
    ensures !panicked ==> Collected(tasks, stage, outcomes, lines, slots, lines', slots')
  {
    lines', slots' := lines, slots;
    for p := 0 to |stage|
      invariant forall q :: 0 <= q < p ==> !SplitsCharacter(outcomes[q])
      invariant lines' == lines + OutcomeLines(tasks, stage, outcomes)[..p]
      invariant |slots'| == |slots|
      invariant forall q :: 0 <= q < p ==> slots'[stage[q]] == Some(outcomes[q])
      invariant forall i :: 0 <= i < |slots| && i !in stage ==> slots'[i] == slots[i]
    {
      if SplitsCharacter(outcomes[p]) {
        return true, lines', slots';
      }
      var idx := stage[p];
      var all := OutcomeLines(tasks, stage, outcomes);
      assert all[..p + 1] == all[..p] + [OutcomeLine(tasks[idx], outcomes[p])];
      lines' := lines' + [OutcomeLine(tasks[idx], outcomes[p])];
      slots' := slots'[idx := Some(outcomes[p])];
    }
    panicked := false;
  }

  lemma SlotsAfterNext(
    plan: Plan, stages: seq<seq<nat>>, k: nat, repairContext: Option<string>, worker: Launch -> Report,
    before: seq<Option<TaskOutcome>>, after: seq<Option<TaskOutcome>>)
    requires IsStaging(plan.tasks, stages) && k < |stages|
    requires HoldTasks(plan.tasks, stages)
    requires SlotsAfter(plan, stages, k, repairContext, worker, before)
    requires |after| == |before|
    requires forall p :: 0 <= p < |stages[k]| ==>
      after[stages[k][p]] == Some(OutcomeIn(plan, stages, k, stages[k][p], repairContext, worker))
    requires forall i :: 0 <= i < |before| && i !in stages[k] ==> after[i] == before[i]
    ensures SlotsAfter(plan, stages, k + 1, repairContext, worker, after)
  {
    assert WellFormedStage(plan.tasks, stages, k);
    forall m, p | 0 <= m < k && 0 <= p < |stages[m]|
      ensures stages[m][p] !in stages[k]
    {
      assert stages[m][p] in Placed(stages, k);
    }
    forall i | 0 <= i < |after| && i !in Placed(stages, k + 1)
      ensures after[i] == None
    {
      assert i !in Placed(stages, k);
    }
  }

  // ---------------------------------------------------------------- what the workers and callers see

  lemma {:induction false} PresentOfFull(slots: seq<Option<TaskOutcome>>)
    requires forall i :: 0 <= i < |slots| ==> slots[i].Some?
    ensures |Present(slots)| == |slots|
    ensures forall i :: 0 <= i < |slots| ==> Present(slots)[i] == slots[i].value
  {
    if slots != [] {
      PresentOfFull(slots[1..]);
    }
  }

  /** Without cancellation, result `i` is the outcome of task `i`, each run in its own stage. */
  lemma UncancelledResultsAlign(
    plan: Plan, repairContext: Option<string>, worker: Launch -> Report, cancelled: nat -> bool,
    stages: seq<seq<nat>>, ran: nat, slots: seq<Option<TaskOutcome>>)
    requires Develops(plan, repairContext, worker, cancelled, stages, ran, slots)
    requires forall k :: 0 <= k < |stages| ==> !cancelled(k)
    ensures |Present(slots)| == |plan.tasks|
    ensures forall k, i :: 0 <= k < |stages| && i in stages[k] ==>
      i < |plan.tasks| && Present(slots)[i] == OutcomeIn(plan, stages, k, i, repairContext, worker)
  {
    assert ran == |stages|;
    forall i | 0 <= i < |slots|
      ensures slots[i].Some?
    {
      var k := EveryTaskRunsOrIsFallback(plan.tasks, stages, i);
      var p :| 0 <= p < |stages[k]| && stages[k][p] == i;
    }
    PresentOfFull(slots);
  }

  /** Plan, feedback, workers and cancellation determine the results. */
  lemma DevelopmentIsUnique(
    plan: Plan, repairContext: Option<string>, worker: Launch -> Report, cancelled: nat -> bool,
    a: seq<TaskOutcome>, ra: seq<seq<Report>>, b: seq<TaskOutcome>, rb: seq<seq<Report>>)
    requires IsDevelopment(plan, repairContext, worker, cancelled, a, ra)
    requires IsDevelopment(plan, repairContext, worker, cancelled, b, rb)
    ensures a == b && ra == rb
  {
    var s, m, x :| Develops(plan, repairContext, worker, cancelled, s, m, x) && a == Present(x)
      && ra == ReportsBefore(plan, s, m, repairContext, worker);
    var t, n, y :| Develops(plan, repairContext, worker, cancelled, t, n, y) && b == Present(y)
      && rb == ReportsBefore(plan, t, n, repairContext, worker);
    StagingUniqueness.StagingIsUnique(plan.tasks, s, t);
    assert m == n;
    SlotsAreDetermined(plan, s, m, repairContext, worker, x, y);
  }

  // ---------------------------------------------------------------- when Phase 5 panics

  lemma {:induction false} ReportsOfStage(
    plan: Plan, stages: seq<seq<nat>>, k: nat, m: nat, repairContext: Option<string>, worker: Launch -> Report)
    requires m < k <= |stages| && HoldTasks(plan.tasks, stages)
    ensures |ReportsBefore(plan, stages, k, repairContext, worker)| == k
    ensures NoneSplits(ReportsBefore(plan, stages, k, repairContext, worker)[m])
      <==> !PanicsIn(plan, stages, m, repairContext, worker)
  {
    if m < k - 1 {
      ReportsOfStage(plan, stages, k - 1, m, repairContext, worker);
    } else {
      if k > 1 {
        ReportsOfStage(plan, stages, k - 1, 0, repairContext, worker);
      }
      PanicIsInReports(plan, stages, m, repairContext, worker);
    }
  }

  /** No outcome of any stage is cut inside a character. */
  predicate NoStageSplits(reports: seq<seq<Report>>) {
    forall k :: 0 <= k < |reports| ==> NoneSplits(reports[k])
  }

  /** Phase 5 returns results only if no outcome it collected is cut inside a character. */
  lemma DevelopmentSplitsNone(
    plan: Plan, repairContext: Option<string>, worker: Launch -> Report, cancelled: nat -> bool,
    results: seq<TaskOutcome>, reports: seq<seq<Report>>)
    requires IsDevelopment(plan, repairContext, worker, cancelled, results, reports)
    ensures NoStageSplits(reports)
  {
    var stages, ran, slots :| Develops(plan, repairContext, worker, cancelled, stages, ran, slots)
      && reports == ReportsBefore(plan, stages, ran, repairContext, worker);
    forall k | 0 <= k < |reports|
      ensures NoneSplits(reports[k])
    {
      ReportsLength(plan, stages, ran, repairContext, worker);
      ReportsOfStage(plan, stages, ran, k, repairContext, worker);
    }
  }

  lemma {:induction false} ReportsLength(
    plan: Plan, stages: seq<seq<nat>>, k: nat, repairContext: Option<string>, worker: Launch -> Report)
    requires k <= |stages| && HoldTasks(plan.tasks, stages)
    ensures |ReportsBefore(plan, stages, k, repairContext, worker)| == k
  {
    if k > 0 {
      ReportsLength(plan, stages, k - 1, repairContext, worker);
    }
  }

  /** When it panics, it is on the last stage it collected and no earlier one. */
  lemma PanicSplitsLast(
    plan: Plan, repairContext: Option<string>, worker: Launch -> Report, cancelled: nat -> bool,
    reports: seq<seq<Report>>)
    requires IsPanic(plan, repairContext, worker, cancelled, reports)
    ensures reports != [] && !NoneSplits(reports[|reports| - 1]) && NoStageSplits(reports[..|reports| - 1])
  {
    var stages: seq<seq<nat>>, last: nat :| BreaksOff(plan, repairContext, worker, cancelled, stages, last)
      && reports == ReportsBefore(plan, stages, last + 1, repairContext, worker);
    ReportsOfStage(plan, stages, last + 1, last, repairContext, worker);
    forall k | 0 <= k < last
      ensures NoneSplits(reports[k])
    {
      ReportsOfStage(plan, stages, last + 1, k, repairContext, worker);
    }
  }

  /** Stage `k` is started, whatever happened before it, and one of its outcomes cannot be cut. */
  ghost predicate PanicReached(
    plan: Plan, repairContext: Option<string>, worker: Launch -> Report, cancelled: nat -> bool,
    stages: seq<seq<nat>>, k: nat)
    requires HoldTasks(plan.tasks, stages)
  {
    && k < |stages|
    && (forall j :: 0 <= j <= k ==> !cancelled(j))
    && PanicsIn(plan, stages, k, repairContext, worker)
  }

  lemma {:induction false} FirstPanic(
    plan: Plan, repairContext: Option<string>, worker: Launch -> Report, cancelled: nat -> bool,
    stages: seq<seq<nat>>, k: nat)
    returns (last: nat)
    requires IsStaging(plan.tasks, stages) && HoldTasks(plan.tasks, stages)
    requires PanicReached(plan, repairContext, worker, cancelled, stages, k)
    ensures BreaksOff(plan, repairContext, worker, cancelled, stages, last)
  {
    if j: nat :| j < k && PanicsIn(plan, stages, j, repairContext, worker) {
      last := FirstPanic(plan, repairContext, worker, cancelled, stages, j);
    } else {
      last := k;
    }
  }

  /**
   * Phase 5 panics iff the stages that no cancellation precedes hold a task whose outcome is cut inside
   * a character.
   */
  lemma PanicIff(
    plan: Plan, repairContext: Option<string>, worker: Launch -> Report, cancelled: nat -> bool,
    stages: seq<seq<nat>>)
    requires IsStaging(plan.tasks, stages) && HoldTasks(plan.tasks, stages)
    ensures (exists reports :: IsPanic(plan, repairContext, worker, cancelled, reports))
      <==> exists k: nat :: PanicReached(plan, repairContext, worker, cancelled, stages, k)
  {
    if reports :| IsPanic(plan, repairContext, worker, cancelled, reports) {
      var s: seq<seq<nat>>, last: nat :| BreaksOff(plan, repairContext, worker, cancelled, s, last);
      StagingUniqueness.StagingIsUnique(plan.tasks, stages, s);
      assert PanicReached(plan, repairContext, worker, cancelled, stages, last);
    }
    if k: nat :| PanicReached(plan, repairContext, worker, cancelled, stages, k) {
      var last := FirstPanic(plan, repairContext, worker, cancelled, stages, k);
      assert IsPanic(plan, repairContext, worker, cancelled,
        ReportsBefore(plan, stages, last + 1, repairContext, worker));
    }
  }

  /** A development that returns results does not panic on the same inputs. */
  lemma DevelopmentIsNoPanic(
    plan: Plan, repairContext: Option<string>, worker: Launch -> Report, cancelled: nat -> bool,
    results: seq<TaskOutcome>, reports: seq<seq<Report>>, broken: seq<seq<Report>>)
    requires IsDevelopment(plan, repairContext, worker, cancelled, results, reports)
    ensures !IsPanic(plan, repairContext, worker, cancelled, broken)
  {
    var stages, ran, slots :| Develops(plan, repairContext, worker, cancelled, stages, ran, slots);
    if IsPanic(plan, repairContext, worker, cancelled, broken) {
      var s: seq<seq<nat>>, last: nat :| BreaksOff(plan, repairContext, worker, cancelled, s, last);
      StagingUniqueness.StagingIsUnique(plan.tasks, stages, s);
    }
  }

  /** Plan, feedback, workers and cancellation determine where it panics. */
  lemma PanicIsUnique(
    plan: Plan, repairContext: Option<string>, worker: Launch -> Report, cancelled: nat -> bool,
    a: seq<seq<Report>>, b: seq<seq<Report>>)
    requires IsPanic(plan, repairContext, worker, cancelled, a) && IsPanic(plan, repairContext, worker, cancelled, b)
    ensures a == b
  {
    var s: seq<seq<nat>>, m: nat :| BreaksOff(plan, repairContext, worker, cancelled, s, m)
      && a == ReportsBefore(plan, s, m + 1, repairContext, worker);
    var t: seq<seq<nat>>, n: nat :| BreaksOff(plan, repairContext, worker, cancelled, t, n)
      && b == ReportsBefore(plan, t, n + 1, repairContext, worker);
    StagingUniqueness.StagingIsUnique(plan.tasks, s, t);
  }

  lemma SlotsAreDetermined(
    plan: Plan, stages: seq<seq<nat>>, ran: nat, repairContext: Option<string>, worker: Launch -> Report,
    x: seq<Option<TaskOutcome>>, y: seq<Option<TaskOutcome>>)
    requires ran <= |stages| && HoldTasks(plan.tasks, stages)
    requires SlotsAfter(plan, stages, ran, repairContext, worker, x)
    requires SlotsAfter(plan, stages, ran, repairContext, worker, y)
    ensures x == y
  {
    forall i | 0 <= i < |x|
      ensures x[i] == y[i]
    {
      if i in Placed(stages, ran) {
        var m, p :| 0 <= m < ran && 0 <= p < |stages[m]| && stages[m][p] == i;
      }
    }
  }

  lemma {:induction false} EarlierLineIsSeen(
    plan: Plan, stages: seq<seq<nat>>, m: nat, k: nat, j: nat, repairContext: Option<string>,
    worker: Launch -> Report)
    requires IsStaging(plan.tasks, stages) && m < k <= |stages| && j in stages[m]
    requires HoldTasks(plan.tasks, stages)
    ensures j < |plan.tasks|
    ensures OutcomeLine(plan.tasks[j], OutcomeIn(plan, stages, m, j, repairContext, worker))
            in LinesBefore(plan, stages, k, repairContext, worker)
  {
    if m < k - 1 {
      EarlierLineIsSeen(plan, stages, m, k - 1, j, repairContext, worker);
    } else {
      var p :| 0 <= p < |stages[m]| && stages[m][p] == j;
      var before := LinesBefore(plan, stages, m, repairContext, worker);
      var lines := OutcomeLines(plan.tasks, stages[m],
        OutcomesOf(StageReports(stages[m], m, |stages|, repairContext, before, worker)));
      assert lines[p] == OutcomeLine(plan.tasks[j], OutcomeIn(plan, stages, m, j, repairContext, worker));
      assert lines[p] in lines;
    }
  }

  /** The context a worker is started with contains the outcome line of a provider of each dependency. */
  lemma DependencyOutcomesAreSeen(
    plan: Plan, stages: seq<seq<nat>>, i: nat, k: nat, d: string, repairContext: Option<string>,
    worker: Launch -> Report)
    requires IsStaging(plan.tasks, stages) && RunsAt(plan.tasks, stages, i, k) && Needs(plan.tasks, i, d)
    requires HoldTasks(plan.tasks, stages)
    ensures exists j: nat, m: nat ::
      && Provides(plan.tasks, j, d) && m < k && j in stages[m]
      && var lines := LinesBefore(plan, stages, k, repairContext, worker);
         && OutcomeIn(plan, stages, k, i, repairContext, worker)
              == worker(Launch(i, repairContext, Some(UpstreamContext(k + 1, |stages|, lines)))).outcome
         && OutcomeLine(plan.tasks[j], OutcomeIn(plan, stages, m, j, repairContext, worker)) in lines
  {
    var j, m := DependenciesRunEarlier(plan.tasks, stages, i, k, d);
    EarlierLineIsSeen(plan, stages, m, k, j, repairContext, worker);
  }

  /** A worker's line names the task and quotes its status and its summary, or the start of its text. */
  lemma OutcomeLineTells(t: WorkerTask, o: TaskOutcome)
    ensures ContainsText(OutcomeLine(t, o), t.title) && ContainsText(OutcomeLine(t, o), o.status)
    ensures o.summary.Some? ==> ContainsText(OutcomeLine(t, o), o.summary.value)
    ensures o.summary.None? && |o.text| <= 300 ==> ContainsText(OutcomeLine(t, o), o.text)
    ensures o.summary.None? && |o.text| > 300 ==> ContainsText(OutcomeLine(t, o), o.text[..300])
  {
    var detail := match o.summary
      case Some(s) => s
      case None => if |o.text| > 300 then o.text[..300] else o.text;
    LineContains(t.title, o.status, detail);
  }

  lemma LineContains(title: string, status: string, detail: string)
    ensures var line := "- [" + title + "] " + status + ": " + detail;
      ContainsText(line, title) && ContainsText(line, status) && ContainsText(line, detail)
  {
    var line := "- [" + title + "] " + status + ": " + detail;
    TextLaws.ContainsMiddle("- [", title, "] " + status + ": " + detail);
    assert "- [" + title + ("] " + status + ": " + detail) == line;
    TextLaws.ContainsMiddle("- [" + title + "] ", status, ": " + detail);
    assert "- [" + title + "] " + status + (": " + detail) == line;
    TextLaws.ContainsMiddle("- [" + title + "] " + status + ": ", detail, "");
    assert "- [" + title + "] " + status + ": " + detail + "" == line;
  }

  /** Later stages see the lines of earlier ones first, one line a task, and no others. */
  lemma {:induction false} LinesGrow(
    plan: Plan, stages: seq<seq<nat>>, j: nat, k: nat, repairContext: Option<string>, worker: Launch -> Report)
    requires j <= k <= |stages| && HoldTasks(plan.tasks, stages)
    ensures LinesBefore(plan, stages, j, repairContext, worker) <= LinesBefore(plan, stages, k, repairContext, worker)
    ensures j + 1 == k ==>
      && var before := LinesBefore(plan, stages, j, repairContext, worker);
      && var lines := LinesBefore(plan, stages, k, repairContext, worker);
      && |lines| == |before| + |stages[j]|
      && forall p :: 0 <= p < |stages[j]| ==>
           lines[|before| + p]
             == OutcomeLine(plan.tasks[stages[j][p]], OutcomeIn(plan, stages, j, stages[j][p], repairContext, worker))
  {
    if j < k {
      LinesGrow(plan, stages, j, k - 1, repairContext, worker);
    }
  }

  /** The architecture, if there is one, is the first line every worker sees; the first stage sees no other. */
  lemma ArchitectureIsSeen(
    plan: Plan, stages: seq<seq<nat>>, k: nat, i: nat, repairContext: Option<string>, worker: Launch -> Report)
    requires k < |stages| && HoldTasks(plan.tasks, stages)
    ensures var lines := LinesBefore(plan, stages, k, repairContext, worker);
      && var context := LaunchOf(k, |stages|, i, repairContext, lines).context;
      && (plan.architecture != "" ==>
            context.Some? && context.value.lines != [] && ContainsText(context.value.lines[0], plan.architecture))
      && (k == 0 && plan.architecture == "" ==> context == None)
      && (k == 0 && plan.architecture != "" ==>
            context == Some(UpstreamContext(1, |stages|, [ARCHITECTURE_HEADING + plan.architecture])))
  {
    LinesGrow(plan, stages, 0, k, repairContext, worker);
    TextLaws.ContainsMiddle(ARCHITECTURE_HEADING, plan.architecture, "");
    assert ARCHITECTURE_HEADING + plan.architecture + "" == ARCHITECTURE_HEADING + plan.architecture;
  }

  /** The signals of a stage come behind those of the stages before it. */
  lemma {:induction false} StagesSendInOrder(reports: seq<seq<Report>>, schedule: nat -> seq<nat>, k: nat)
    requires k < |reports|
    ensures SentByStages(reports[..k], schedule) + Interleave(Sents(reports[k]), schedule(k))
      <= SentByStages(reports, schedule)
  {
    var n := |reports| - 1;
    if k < n {
      StagesSendInOrder(reports[..n], schedule, k);
      assert reports[..n][..k] == reports[..k];
    }
  }

  // ---------------------------------------------------------------- cancelled runs

  /** The tasks with an outcome, in index order. */
  function FinishedTasks(slots: seq<Option<TaskOutcome>>): seq<nat> {
    if slots == [] then []
    else FinishedTasks(slots[..|slots| - 1]) + if slots[|slots| - 1].Some? then [|slots| - 1] else []
  }

  lemma {:induction false} PresentSnoc(slots: seq<Option<TaskOutcome>>, last: Option<TaskOutcome>)
    ensures Present(slots + [last]) == Present(slots) + match last case Some(o) => [o] case None => []
  {
    if slots == [] {
      assert [last][1..] == [];
    } else {
      assert (slots + [last])[1..] == slots[1..] + [last];
      PresentSnoc(slots[1..], last);
    }
  }

  lemma {:induction false} FinishedTasksAreSome(slots: seq<Option<TaskOutcome>>)
    ensures Increasing(FinishedTasks(slots))
    ensures forall i: nat :: i in FinishedTasks(slots) <==> i < |slots| && slots[i].Some?
  {
    if slots != [] {
      var front, n := slots[..|slots| - 1], |slots| - 1;
      FinishedTasksAreSome(front);
      if slots[n].Some? {
        IncreasingSnoc(FinishedTasks(front), n);
      }
    }
  }

  /** Entry `p` of the results belongs to the `p`-th task that finished. */
  lemma {:induction false} ResultsListFinishedTasks(slots: seq<Option<TaskOutcome>>)
    ensures |Present(slots)| == |FinishedTasks(slots)|
    ensures forall p :: 0 <= p < |Present(slots)| ==>
      var i := FinishedTasks(slots)[p];
      i < |slots| && slots[i] == Some(Present(slots)[p])
  {
    if slots != [] {
      var front, last := slots[..|slots| - 1], slots[|slots| - 1];
      ResultsListFinishedTasks(front);
      PresentSnoc(front, last);
      assert slots == front + [last];
    }
  }

  /** Entry `p` of the results is the outcome of task `p`, for all entries. */
  ghost predicate EntriesAlign(slots: seq<Option<TaskOutcome>>) {
    forall p :: 0 <= p < |FinishedTasks(slots)| ==> FinishedTasks(slots)[p] == p
  }

  /** No task finished behind one that did not. */
  ghost predicate NoGaps(slots: seq<Option<TaskOutcome>>) {
    forall i, j :: 0 <= i < j < |slots| && slots[j].Some? ==> slots[i].Some?
  }

  lemma EntriesAlignWithoutGaps(slots: seq<Option<TaskOutcome>>)
    ensures EntriesAlign(slots) <==> NoGaps(slots)
  {
    var f := FinishedTasks(slots);
    FinishedTasksAreSome(slots);
    if EntriesAlign(slots) {
      forall i, j | 0 <= i < j < |slots| && slots[j].Some?
        ensures slots[i].Some?
      {
        assert j in f;
        var p :| 0 <= p < |f| && f[p] == j;
        assert f[i] == i;
        assert f[i] in f;
      }
    }
    if NoGaps(slots) {
      forall p | 0 <= p < |f|
        ensures f[p] == p
      {
        FinishedPrefix(slots, p);
      }
    }
  }

  /** The first `ran` stages hold no task without all tasks before it. */
  ghost predicate StagesHoldPrefix(tasks: seq<WorkerTask>, stages: seq<seq<nat>>, ran: nat)
    requires ran <= |stages|
  {
    forall i, j :: 0 <= i < j < |tasks| && j in Placed(stages, ran) ==> i in Placed(stages, ran)
  }

  lemma FinishedIffPlaced(
    plan: Plan, stages: seq<seq<nat>>, ran: nat, repairContext: Option<string>, worker: Launch -> Report,
    slots: seq<Option<TaskOutcome>>, i: nat)
    requires ran <= |stages| && HoldTasks(plan.tasks, stages) && i < |plan.tasks|
    requires SlotsAfter(plan, stages, ran, repairContext, worker, slots)
    ensures slots[i].Some? <==> i in Placed(stages, ran)
  {
    if i in Placed(stages, ran) {
      var m, p :| 0 <= m < ran && 0 <= p < |stages[m]| && stages[m][p] == i;
    }
  }

  /**
   * Phase 6 and the task rows read entry `p` as the result of task `p`. When the run is cancelled
   * before stage `ran`, that is right for all entries iff the stages before hold no task without all
   * tasks listed before it.
   */
  lemma ResultsAlignIff(
    plan: Plan, repairContext: Option<string>, worker: Launch -> Report, cancelled: nat -> bool,
    stages: seq<seq<nat>>, ran: nat, slots: seq<Option<TaskOutcome>>)
    requires Develops(plan, repairContext, worker, cancelled, stages, ran, slots)
    ensures EntriesAlign(slots) <==> StagesHoldPrefix(plan.tasks, stages, ran)
  {
    EntriesAlignWithoutGaps(slots);
    forall i: nat | i < |plan.tasks|
      ensures slots[i].Some? <==> i in Placed(stages, ran)
    {
      FinishedIffPlaced(plan, stages, ran, repairContext, worker, slots, i);
    }
  }

  /** Later tasks run in the same stage or in a later one. */
  ghost predicate StagesFollowOrder(tasks: seq<WorkerTask>, stages: seq<seq<nat>>) {
    forall i, j, a, b ::
      (0 <= i < j < |tasks| && 0 <= a < |stages| && 0 <= b < |stages| && i in stages[a] && j in stages[b]) ==> a <= b
  }

  lemma PrefixesFollowOrder(tasks: seq<WorkerTask>, stages: seq<seq<nat>>, ran: nat)
    requires IsStaging(tasks, stages) && ran <= |stages| && StagesFollowOrder(tasks, stages)
    ensures StagesHoldPrefix(tasks, stages, ran)
  {
    forall i, j | 0 <= i < j < |tasks| && j in Placed(stages, ran)
      ensures i in Placed(stages, ran)
    {
      var b := StageOf(stages, j, ran);
      var a := EveryTaskRunsOrIsFallback(tasks, stages, i);
      assert a <= b;
      InStageIsPlaced(stages, i, a, ran);
    }
  }

  /** No cancellation can misalign the entries iff stage numbers never fall from one task to a later one. */
  lemma NoCancellationMisalignsIff(tasks: seq<WorkerTask>, stages: seq<seq<nat>>)
    requires IsStaging(tasks, stages)
    ensures (forall ran: nat :: ran <= |stages| ==> StagesHoldPrefix(tasks, stages, ran))
      <==> StagesFollowOrder(tasks, stages)
  {
    if StagesFollowOrder(tasks, stages) {
      forall ran: nat | ran <= |stages|
        ensures StagesHoldPrefix(tasks, stages, ran)
      {
        PrefixesFollowOrder(tasks, stages, ran);
      }
    }
    if forall ran: nat :: ran <= |stages| ==> StagesHoldPrefix(tasks, stages, ran) {
      forall i, j, a, b | 0 <= i < j < |tasks| && 0 <= a < |stages| && 0 <= b < |stages|
        && i in stages[a] && j in stages[b]
        ensures a <= b
      {
        assert StagesHoldPrefix(tasks, stages, b + 1);
        InStageIsPlaced(stages, j, b, b + 1);
        var m := StageOf(stages, i, b + 1);
        StageIsUnique(tasks, stages, i, m, a);
      }
    }
  }

  /** Two tasks of which the first depends on the second. */
  function BackwardTasks(t: WorkerTask): seq<WorkerTask> {
    [t.(id := "a", dependencies := ["b"]), t.(id := "b", dependencies := [])]
  }

  lemma BackwardNeeds(t: WorkerTask, i: nat, d: string)
    ensures Needs(BackwardTasks(t), i, d) <==> i == 0 && d == "b"
  {
    var tasks := BackwardTasks(t);
    assert Trim("a") == "a" && Trim("b") == "b" && "a" != "b" by {
      assert "a"[0] != "b"[0];
    }
    assert Provides(tasks, 1, "b");
    assert tasks[0].dependencies[0] == "b";
  }

  lemma BackwardStages(t: WorkerTask)
    ensures IsStaging(BackwardTasks(t), [[1], [0]])
  {
    var tasks, stages: seq<seq<nat>> := BackwardTasks(t), [[1], [0]];
    assert Trim(tasks[0].id) == "a" && Trim(tasks[1].id) == "b" && "a"[0] != "b"[0];
    assert Placed(stages, 0) == {};
    assert Placed(stages, 1) == {1} by {
      assert stages[0][0] == 1;
    }
    assert stages[1][0] == 0 && 0 in Placed(stages, 2) && 1 in Placed(stages, 2);
    assert IdsOf(tasks, {}) == {} && IdsOf(tasks, {1}) == {"b"};
    forall i: nat, d: string
      ensures Needs(tasks, i, d) <==> i == 0 && d == "b"
    {
      BackwardNeeds(t, i, d);
    }
    assert Needs(tasks, 0, "b");
    assert !Ready(tasks, 0, {}) && Ready(tasks, 1, {}) && Ready(tasks, 0, {"b"});
    assert NormalStage(tasks, stages, 0) && NormalStage(tasks, stages, 1);
  }

  lemma OnlySecondFinished(
    t: WorkerTask, repairContext: Option<string>, worker: Launch -> Report, slots: seq<Option<TaskOutcome>>)
    requires HoldTasks(BackwardTasks(t), [[1], [0]])
    requires SlotsAfter(Plan("", BackwardTasks(t)), [[1], [0]], 1, repairContext, worker, slots)
    ensures Present(slots) == [worker(Launch(1, repairContext, None)).outcome]
  {
    var plan, stages: seq<seq<nat>> := Plan("", BackwardTasks(t)), [[1], [0]];
    assert stages[0][0] == 1;
    assert slots[1] == Some(OutcomeIn(plan, stages, 0, 1, repairContext, worker));
    assert Placed(stages, 1) == {1};
    assert slots == [None, slots[1]];
    assert slots[1..] == [slots[1]] && slots[1..][1..] == [];
    assert Present(slots[1..]) == [slots[1].value];
  }

  /** Cancelled before its second stage, this plan's only result is task 1's and stands in task 0's place. */
  lemma CancelledRunMislabels(
    t: WorkerTask, repairContext: Option<string>, worker: Launch -> Report, cancelled: nat -> bool,
    results: seq<TaskOutcome>, reports: seq<seq<Report>>)
    requires !cancelled(0) && cancelled(1)
    requires IsDevelopment(Plan("", BackwardTasks(t)), repairContext, worker, cancelled, results, reports)
    ensures results == [worker(Launch(1, repairContext, None)).outcome]
  {
    var plan := Plan("", BackwardTasks(t));
    var stages: seq<seq<nat>>, ran: nat, slots: seq<Option<TaskOutcome>> :|
      Develops(plan, repairContext, worker, cancelled, stages, ran, slots) && results == Present(slots);
    BackwardStages(t);
    StagingUniqueness.StagingIsUnique(plan.tasks, stages, [[1], [0]]);
    OnlySecondFinished(t, repairContext, worker, slots);
  }

  lemma {:induction false} FinishedPrefix(slots: seq<Option<TaskOutcome>>, p: nat)
    requires p < |FinishedTasks(slots)| && NoGaps(slots)
    ensures FinishedTasks(slots)[p] == p
  {
    var f := FinishedTasks(slots);
    FinishedTasksAreSome(slots);
    assert f[p] in f;
    IncreasingIsAtLeast(f, p);
    if f[p] > p {
      assert slots[p].Some?;
      assert p in f;
      var q :| 0 <= q < |f| && f[q] == p;
      IncreasingIsAtLeast(f, q);
      if p > 0 {
        FinishedPrefix(slots, p - 1);
      }
    }
  }

  lemma {:induction false} IncreasingIsAtLeast(s: seq<nat>, p: nat)
    requires Increasing(s) && p < |s|
    ensures s[p] >= p
  {
    if p > 0 {
      IncreasingIsAtLeast(s, p - 1);
    }
  }
}
