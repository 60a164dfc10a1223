// `Orchestrator::run`: the eight phases, the bounded repair loop between development and final
// review, and the terminal status.
module Workflow {
  import opened Text
  import opened Staging
  import opened PlanMerge
  import opened AgentRuns
  import opened Candidates
  import opened AgentReports
  import opened Develop

  // ---------------------------------------------------------------- verdicts

  datatype Verdict = Pass | Repair | Rewrite | Unknown

  predicate ShouldRepairDecision(a: Verdict, b: Verdict, loopCount: nat, maxLoops: nat) {
    if (a.Pass? && b.Pass?) || (a.Unknown? && b.Unknown?) then false
    else loopCount < maxLoops
  }

  function VerdictSeverityRank(v: Verdict): nat {
    match v
    case Rewrite => 2
    case Repair => 1
    case _ => 0
  }

  /** The terminal statuses of a workflow. */
  datatype WorkflowStatus =
    | Finished
    | RoleNotConfigured
    | BothCriticsUnresponsive
    | RejectedBy(verdict: Verdict, role: string)

  function TerminalDoneStatus(a: Verdict, b: Verdict, roleA: string, roleB: string): WorkflowStatus {
    if a.Unknown? && b.Unknown? then BothCriticsUnresponsive
    else
      var (verdict, role) := if VerdictSeverityRank(a) >= VerdictSeverityRank(b) then (a, roleA) else (b, roleB);
      if verdict.Pass? || verdict.Unknown? then Finished else RejectedBy(verdict, role)
  }

  // ---------------------------------------------------------------- the run

  datatype Phase =
    | Requirement | Planning | PlanReview | Dispatch | Developing | FinalReview | Repairing | Delivery

  datatype WorkflowEvent =
    | PhaseTransition(to: Phase)
    | ReviewerVerdict(phase: Phase, role: string, verdict: Verdict)
    | RepairLoop(index: nat, maxLoops: nat, verdictA: Verdict, verdictB: Verdict)
    | WorkflowDone(status: WorkflowStatus, summary: Summary)

  /** What the user is shown: the final verdicts ahead of what the chief delivered. */
  datatype Summary =
    | NotConfigured(error: string)
    | Delivered(roleA: string, verdictA: Verdict, roleB: string, verdictB: Verdict, body: DeliveryBody)

  datatype DeliveryBody = ChiefText(text: string) | NothingDelivered(taskCount: nat)

  /** What the workers of a repair are told. */
  datatype Feedback = Feedback(
    criticA: string, verdictA: Verdict, issuesA: Issues,
    criticB: string, verdictB: Verdict, issuesB: Issues,
    decision: string)

  datatype Issues = IssueList(issues: seq<string>) | Excerpt(text: string)

  /**
   * What the run does not decide itself: whether the chief role resolves, how every agent run ends and
   * what it sends, in which order concurrent agents send it, how a critic's answer reads, how feedback
   * is worded, and where the cancellation token is found set. Round 0 is the first development, round
   * `r` the `r`-th repair.
   */
  datatype Crew = Crew(
    notConfigured: Option<string>,
    clarify: Report, planA: Report, planB: Report, planC: Report,
    planCriticA: seq<WorkerTask> -> Report,
    planCriticB: seq<WorkerTask> -> Report,
    planReviewOrder: seq<nat>,
    dispatch: Report,
    workers: nat -> Launch -> Report,
    workerOrder: nat -> nat -> seq<nat>,
    cancelled: nat -> nat -> bool,
    finalCriticA: (nat, seq<TaskOutcome>) -> Report,
    finalCriticB: (nat, seq<TaskOutcome>) -> Report,
    finalReviewOrder: nat -> seq<nat>,
    cancelledAfterReview: nat -> bool,
    repairChief: (nat, TaskOutcome, TaskOutcome) -> Report,
    deliveryChief: seq<TaskOutcome> -> Report,
    verdict: TaskOutcome -> Verdict,
    issues: TaskOutcome -> seq<string>,
    wording: Feedback -> string)

  /** Everything the crew reports comes from agent runs. */
  ghost predicate AgentsReport(crew: Crew) {
    && IsReport(crew.clarify) && IsReport(crew.planA) && IsReport(crew.planB) && IsReport(crew.planC)
    && IsReport(crew.dispatch)
    && (forall tasks :: IsReport(crew.planCriticA(tasks)) && IsReport(crew.planCriticB(tasks)))
    && (forall r, launch :: IsReport(crew.workers(r)(launch)))
    && (forall r, results :: IsReport(crew.finalCriticA(r, results)) && IsReport(crew.finalCriticB(r, results)))
    && (forall r, a, b :: IsReport(crew.repairChief(r, a, b)))
    && (forall results :: IsReport(crew.deliveryChief(results)))
  }

  /** One development, with the reports of its workers stage by stage, and the review of its results. */
  datatype Round = Round(
    repairContext: Option<string>, results: seq<TaskOutcome>, reports: seq<seq<Report>>,
    a: TaskOutcome, b: TaskOutcome)

  predicate EndsReview(o: TaskOutcome) {
    o.status == "ABORTED" || StartsWith(o.status, "FAILED: resolve") || ContainsText(o.status, "auth_error")
  }

  /** Review `r` ends the loop whatever the verdicts are. */
  predicate Stops(crew: Crew, r: nat, round: Round) {
    crew.cancelledAfterReview(r) || EndsReview(round.a) || EndsReview(round.b)
  }

  predicate Repairs(crew: Crew, max: nat, r: nat, round: Round) {
    !Stops(crew, r, round) && ShouldRepairDecision(crew.verdict(round.a), crew.verdict(round.b), r, max)
  }

  function Take(s: string, n: nat): string {
    if |s| <= n then s else s[..n]
  }

  /** The critic's list of issues, or the start of its text if it gave none. */
  function IssuesOf(crew: Crew, o: TaskOutcome): Issues {
    if crew.issues(o) == [] then Excerpt(Take(o.text, 500)) else IssueList(crew.issues(o))
  }

  /** What the workers of repair `r` are told about the review of the round before it. */
  function FeedbackFor(crew: Crew, r: nat, round: Round): Feedback
    requires r > 0
  {
    Feedback(
      round.a.roleDisplay, crew.verdict(round.a), IssuesOf(crew, round.a),
      round.b.roleDisplay, crew.verdict(round.b), IssuesOf(crew, round.b),
      Take(crew.repairChief(r, round.a, round.b).outcome.text, 200))
  }

  /** The final task list replaces the planned one if the chief sent one that is not the placeholder. */
  predicate Confirms(tasks: seq<WorkerTask>) {
    tasks != [] && tasks[0].id != FALLBACK_ID
  }

  /** The confirmed architecture if there is one, else the first of the planning rounds. */
  function FinalArchitecture(a: string, b: string, c: string, updated: PlanDoc): string
    reads updated
  {
    var planned := Preferred(Preferred(a, b), c);
    if Confirms(updated.tasks) then Preferred(updated.architecture, planned) else planned
  }

  // ---------------------------------------------------------------- what a run is

  /** The feedback the round after `earlier` starts from. */
  function FeedbackBefore(crew: Crew, earlier: seq<Round>): Option<string> {
    if earlier == [] then None
    else Some(crew.wording(FeedbackFor(crew, |earlier|, earlier[|earlier| - 1])))
  }

  /** Round `r` develops `plan` on the feedback of the round before, and the critics review its results. */
  ghost predicate IsRound(crew: Crew, plan: Plan, rounds: seq<Round>, r: nat)
    requires r < |rounds|
  {
    && rounds[r].repairContext == FeedbackBefore(crew, rounds[..r])
    && IsDevelopment(
         plan, rounds[r].repairContext, crew.workers(r), crew.cancelled(r), rounds[r].results, rounds[r].reports)
    && rounds[r].a == crew.finalCriticA(r, rounds[r].results).outcome
    && rounds[r].b == crew.finalCriticB(r, rounds[r].results).outcome
  }

  /** All rounds so far led to a repair. */
  ghost predicate AreRepaired(crew: Crew, max: nat, plan: Plan, rounds: seq<Round>) {
    forall r: nat :: r < |rounds| ==> IsRound(crew, plan, rounds, r) && Repairs(crew, max, r, rounds[r])
  }

  /** The loop ends at the first round that is not repaired. */
  ghost predicate IsLoop(crew: Crew, max: nat, plan: Plan, rounds: seq<Round>) {
    && rounds != []
    && (forall r: nat :: r < |rounds| ==> IsRound(crew, plan, rounds, r))
    && (forall r: nat :: r < |rounds| - 1 ==> Repairs(crew, max, r, rounds[r]))
    && !Repairs(crew, max, |rounds| - 1, rounds[|rounds| - 1])
  }

  /** All rounds were repaired, and the development of the next one panics behind `reports`. */
  ghost predicate IsPanicLoop(crew: Crew, max: nat, plan: Plan, rounds: seq<Round>, reports: seq<seq<Report>>) {
    var r := |rounds|;
    && AreRepaired(crew, max, plan, rounds)
    && IsPanic(plan, FeedbackBefore(crew, rounds), crew.workers(r), crew.cancelled(r), reports)
  }

  /**
   * Phases 5 to 7: the rounds that were reviewed and, if the code panicked in a development behind them,
   * the workers of that development.
   */
  ghost predicate AreRounds(
    crew: Crew, max: nat, plan: Plan, rounds: seq<Round>, broken: Option<seq<seq<Report>>>)
  {
    match broken
    case None => IsLoop(crew, max, plan, rounds)
    case Some(reports) => IsPanicLoop(crew, max, plan, rounds, reports)
  }

  // ---------------------------------------------------------------- the announcements of a run

  function Verdicts(crew: Crew, phase: Phase, a: TaskOutcome, b: TaskOutcome): seq<WorkflowEvent> {
    [ReviewerVerdict(phase, a.roleId, crew.verdict(a)), ReviewerVerdict(phase, b.roleId, crew.verdict(b))]
  }

  function PlanVerdicts(crew: Crew, planned: seq<WorkerTask>): seq<WorkflowEvent> {
    Verdicts(crew, PlanReview, crew.planCriticA(planned).outcome, crew.planCriticB(planned).outcome)
  }

  /** The announcements up to the first development; `planned` is the task list the plan critics see. */
  function Opening(crew: Crew, planned: seq<WorkerTask>): seq<WorkflowEvent> {
    [PhaseTransition(Requirement), PhaseTransition(Planning), PhaseTransition(PlanReview)]
    + PlanVerdicts(crew, planned)
    + [PhaseTransition(Dispatch), PhaseTransition(Developing)]
  }

  /** Phase 7, for every round but the first. */
  function RepairEvents(crew: Crew, max: nat, earlier: seq<Round>): seq<WorkflowEvent> {
    if earlier == [] then []
    else
      var n, round := |earlier|, earlier[|earlier| - 1];
      [PhaseTransition(Repairing), RepairLoop(n, max, crew.verdict(round.a), crew.verdict(round.b))]
  }

  /** The rounds one after the other: a repair if it is one, then the review. */
  function LoopEvents(crew: Crew, max: nat, rounds: seq<Round>): seq<WorkflowEvent> {
    if rounds == [] then []
    else
      var n, last := |rounds| - 1, rounds[|rounds| - 1];
      LoopEvents(crew, max, rounds[..n])
      + (RepairEvents(crew, max, rounds[..n]) + [PhaseTransition(FinalReview)])
      + Verdicts(crew, FinalReview, last.a, last.b)
  }

  function FinalStatus(crew: Crew, last: Round): WorkflowStatus {
    TerminalDoneStatus(crew.verdict(last.a), crew.verdict(last.b), last.a.roleId, last.b.roleId)
  }

  function Closing(status: WorkflowStatus, summary: Summary): seq<WorkflowEvent> {
    [PhaseTransition(Delivery), WorkflowDone(status, summary)]
  }

  function Trace(
    crew: Crew, max: nat, planned: seq<WorkerTask>, rounds: seq<Round>, summary: Summary): seq<WorkflowEvent>
    requires rounds != []
  {
    Opening(crew, planned) + LoopEvents(crew, max, rounds)
    + Closing(FinalStatus(crew, rounds[|rounds| - 1]), summary)
  }

  /** The announcements of a run that panics in the development behind `rounds`. */
  function BrokenTrace(crew: Crew, max: nat, planned: seq<WorkerTask>, rounds: seq<Round>): seq<WorkflowEvent> {
    Opening(crew, planned) + LoopEvents(crew, max, rounds) + RepairEvents(crew, max, rounds)
  }

  // ---------------------------------------------------------------- the events on the channel

  /** The orchestrator announces something, or agents run, alone or at the same time. */
  datatype Step = Say(event: WorkflowEvent) | Hear(reports: seq<Report>, order: seq<nat>)

  /** An announcement, or a signal of an agent run sent on as it comes. */
  datatype StreamEvent = Own(event: WorkflowEvent) | FromAgent(signal: Signal)

  function FromAgents(signals: seq<Signal>): (events: seq<StreamEvent>)
    ensures |events| == |signals|
    ensures forall k :: 0 <= k < |events| ==> events[k] == FromAgent(signals[k])
  {
    seq(|signals|, k requires 0 <= k < |signals| => FromAgent(signals[k]))
  }

  function StepEvents(step: Step): seq<StreamEvent> {
    match step
    case Say(e) => [Own(e)]
    case Hear(reports, order) => FromAgents(Interleave(Sents(reports), order))
  }

  function StreamOf(script: seq<Step>): seq<StreamEvent> {
    if script == [] then [] else StreamOf(script[..|script| - 1]) + StepEvents(script[|script| - 1])
  }

  function Solo(r: Report): Step {
    Hear([r], [])
  }

  function SayAll(events: seq<WorkflowEvent>): (script: seq<Step>)
    ensures |script| == |events|
  {
    seq(|events|, k requires 0 <= k < |events| => Say(events[k]))
  }

  function DevelopScript(reports: seq<seq<Report>>, order: nat -> seq<nat>): seq<Step> {
    if reports == [] then []
    else
      var n := |reports| - 1;
      DevelopScript(reports[..n], order) + [Hear(reports[n], order(n))]
  }

  function OpeningScript(crew: Crew, planned: seq<WorkerTask>): seq<Step> {
    [Say(PhaseTransition(Requirement)), Solo(crew.clarify)]
    + [Say(PhaseTransition(Planning)), Solo(crew.planA), Solo(crew.planB), Solo(crew.planC)]
    + [Say(PhaseTransition(PlanReview)),
       Hear([crew.planCriticA(planned), crew.planCriticB(planned)], crew.planReviewOrder)]
    + SayAll(PlanVerdicts(crew, planned))
    + [Say(PhaseTransition(Dispatch)), Solo(crew.dispatch), Say(PhaseTransition(Developing))]
  }

  function RepairScript(crew: Crew, max: nat, earlier: seq<Round>): seq<Step> {
    if earlier == [] then []
    else
      var n, round := |earlier|, earlier[|earlier| - 1];
      [Say(PhaseTransition(Repairing)), Solo(crew.repairChief(n, round.a, round.b)),
       Say(RepairLoop(n, max, crew.verdict(round.a), crew.verdict(round.b)))]
  }

  /** The development of the round after `earlier`, up to its review. */
  function DevelopedScript(crew: Crew, max: nat, earlier: seq<Round>, reports: seq<seq<Report>>): seq<Step> {
    RepairScript(crew, max, earlier)
    + DevelopScript(reports, crew.workerOrder(|earlier|))
    + [Say(PhaseTransition(FinalReview))]
  }

  function ReviewScript(crew: Crew, r: nat, round: Round): seq<Step> {
    [Hear([crew.finalCriticA(r, round.results), crew.finalCriticB(r, round.results)], crew.finalReviewOrder(r))]
    + SayAll(Verdicts(crew, FinalReview, round.a, round.b))
  }

  function LoopScript(crew: Crew, max: nat, rounds: seq<Round>): seq<Step> {
    if rounds == [] then []
    else
      var n := |rounds| - 1;
      LoopScript(crew, max, rounds[..n])
      + DevelopedScript(crew, max, rounds[..n], rounds[n].reports)
      + ReviewScript(crew, n, rounds[n])
  }

  function ClosingScript(crew: Crew, last: Round, summary: Summary): seq<Step> {
    [Say(PhaseTransition(Delivery)), Solo(crew.deliveryChief(last.results)),
     Say(WorkflowDone(FinalStatus(crew, last), summary))]
  }

  function Script(
    crew: Crew, max: nat, planned: seq<WorkerTask>, rounds: seq<Round>, summary: Summary): seq<Step>
    requires rounds != []
  {
    OpeningScript(crew, planned) + LoopScript(crew, max, rounds)
    + ClosingScript(crew, rounds[|rounds| - 1], summary)
  }

  /** The development behind `rounds`, without the transition out of it. */
  function BrokenDevelopment(crew: Crew, max: nat, rounds: seq<Round>, reports: seq<seq<Report>>): seq<Step> {
    RepairScript(crew, max, rounds) + DevelopScript(reports, crew.workerOrder(|rounds|))
  }

  function BrokenScript(
    crew: Crew, max: nat, planned: seq<WorkerTask>, rounds: seq<Round>, reports: seq<seq<Report>>): seq<Step>
  {
    OpeningScript(crew, planned) + LoopScript(crew, max, rounds) + BrokenDevelopment(crew, max, rounds, reports)
  }

  // ---------------------------------------------------------------- the summary

  /** The texts the chief may have delivered, the better one first. */
  function DeliveryTexts(delivery: TaskOutcome): seq<string> {
    [match delivery.summary case Some(s) => s case None => "", delivery.text]
  }

  /** The summary leads with both verdicts and goes on with the first text that is not empty, if any. */
  ghost predicate IsFinalSummary(crew: Crew, last: Round, delivery: TaskOutcome, taskCount: nat, summary: Summary) {
    && summary.Delivered?
    && summary.roleA == last.a.roleId && summary.verdictA == crew.verdict(last.a)
    && summary.roleB == last.b.roleId && summary.verdictB == crew.verdict(last.b)
    && match summary.body
       case ChiefText(text) => FirstNonEmpty(DeliveryTexts(delivery), text)
       case NothingDelivered(n) => n == taskCount && forall t :: t in DeliveryTexts(delivery) ==> t == ""
  }

  ghost predicate FirstNonEmpty(texts: seq<string>, text: string) {
    text != "" && exists k :: 0 <= k < |texts| && texts[k] == text && forall j :: 0 <= j < k ==> texts[j] == ""
  }

  /** The contract of the summary admits one only. */
  lemma FinalSummaryIsUnique(
    crew: Crew, last: Round, delivery: TaskOutcome, taskCount: nat, s: Summary, t: Summary)
    requires IsFinalSummary(crew, last, delivery, taskCount, s) && IsFinalSummary(crew, last, delivery, taskCount, t)
    ensures s == t
  {
    var texts := DeliveryTexts(delivery);
    if s.body.ChiefText? {
      FirstNonEmptyIsListed(texts, s.body.text);
    }
    if t.body.ChiefText? {
      FirstNonEmptyIsListed(texts, t.body.text);
    }
    if s.body.ChiefText? && t.body.ChiefText? {
      FirstNonEmptyIsUnique(texts, s.body.text, t.body.text);
    }
  }

  lemma FirstNonEmptyIsListed(texts: seq<string>, text: string)
    requires FirstNonEmpty(texts, text)
    ensures text in texts && text != ""
  {
  }

  lemma FirstNonEmptyIsUnique(texts: seq<string>, s: string, t: string)
    requires FirstNonEmpty(texts, s) && FirstNonEmpty(texts, t)
    ensures s == t
  {
    var k :| 0 <= k < |texts| && texts[k] == s && forall j :: 0 <= j < k ==> texts[j] == "";
    var l :| 0 <= l < |texts| && texts[l] == t && forall j :: 0 <= j < l ==> texts[j] == "";
    assert k == l;
  }

  /** The chief's summary if it is not empty, else its text if that is not empty, else the placeholder. */
  lemma DeliveredTextIs(crew: Crew, last: Round, delivery: TaskOutcome, taskCount: nat, summary: Summary)
    requires IsFinalSummary(crew, last, delivery, taskCount, summary)
    ensures forall s :: delivery.summary == Some(s) && s != "" ==> summary.body == ChiefText(s)
    ensures (delivery.summary == None || delivery.summary == Some("")) ==>
      summary.body == if delivery.text != "" then ChiefText(delivery.text) else NothingDelivered(taskCount)
  {
    var texts := DeliveryTexts(delivery);
    assert texts[0] in texts && texts[1] in texts;
    if summary.body.ChiefText? {
      FirstNonEmptyIsListed(texts, summary.body.text);
    }
  }

  class Orchestrator {
    const maxRepairLoops: nat
    var events: seq<StreamEvent>
    ghost var script: seq<Step>

    ghost predicate Valid() reads this {
      events == StreamOf(script)
    }

    constructor (maxRepairLoops: nat)
      ensures Valid() && this.maxRepairLoops == maxRepairLoops && script == []
    {
      this.maxRepairLoops, events, script := maxRepairLoops, [], [];
    }

    method Emit(e: WorkflowEvent)
      requires Valid()
      modifies this`events, this`script
      ensures Valid() && script == old(script) + [Say(e)]
    {
      StreamSnoc(script, Say(e));
      events, script := events + [Own(e)], script + [Say(e)];
    }

    /** Agents run; what they send goes out as it comes. */
    method Listen(reports: seq<Report>, order: seq<nat>)
      requires Valid()
      modifies this`events, this`script
      ensures Valid() && script == old(script) + [Hear(reports, order)]
    {
      StreamSnoc(script, Hear(reports, order));
      events, script := events + FromAgents(Interleave(Sents(reports), order)), script + [Hear(reports, order)];
    }

    method EmitVerdicts(crew: Crew, phase: Phase, a: TaskOutcome, b: TaskOutcome)
      requires Valid()
      modifies this`events, this`script
      ensures Valid() && script == old(script) + SayAll(Verdicts(crew, phase, a, b))
    {
      Emit(ReviewerVerdict(phase, a.roleId, crew.verdict(a)));
      Emit(ReviewerVerdict(phase, b.roleId, crew.verdict(b)));
    }

    /** Phase 4: the confirmed task list is taken over as it is, ids included. */
    method ApplyDispatch(plan: PlanDoc, updated: PlanDoc)
      requires updated != plan
      modifies plan
      ensures plan.tasks == if Confirms(updated.tasks) then updated.tasks else old(plan.tasks)
      ensures plan.summary
        == if Confirms(updated.tasks) then Preferred(updated.summary, old(plan.summary)) else old(plan.summary)
      ensures plan.architecture
        == if Confirms(updated.tasks) then Preferred(updated.architecture, old(plan.architecture))
           else old(plan.architecture)
    {
      if updated.tasks != [] && updated.tasks[0].id != FALLBACK_ID {
        plan.tasks := updated.tasks;
        if updated.summary != "" {
          plan.summary := updated.summary;
        }
        if updated.architecture != "" {
          plan.architecture := updated.architecture;
        }
      }
    }

    /** Phase 5: development number `r`. */
    method DevelopRound(crew: Crew, plan: Plan, r: nat, repairContext: Option<string>)
      returns (results: Option<seq<TaskOutcome>>, reports: seq<seq<Report>>)
      requires Valid()
      modifies this`events, this`script
      ensures results.Some? ==>
        IsDevelopment(plan, repairContext, crew.workers(r), crew.cancelled(r), results.value, reports)
      ensures results.None? ==> IsPanic(plan, repairContext, crew.workers(r), crew.cancelled(r), reports)
      ensures Valid() && script == old(script) + DevelopScript(reports, crew.workerOrder(r))
    {
      var sent;
      results, reports, sent :=
        RunPhase5Workers(plan, repairContext, crew.workers(r), crew.cancelled(r), crew.workerOrder(r));
      StreamOfDevelopment(script, reports, crew.workerOrder(r));
      events, script := events + FromAgents(sent), script + DevelopScript(reports, crew.workerOrder(r));
    }

    /** Phase 6: both critics see the results; `again` says whether Phase 7 follows. */
    method ReviewRound(
      crew: Crew, r: nat, repairContext: Option<string>, results: seq<TaskOutcome>, reports: seq<seq<Report>>)
      returns (round: Round, again: bool)
      requires Valid()
      modifies this`events, this`script
      ensures round == Round(repairContext, results, reports,
        crew.finalCriticA(r, results).outcome, crew.finalCriticB(r, results).outcome)
      ensures again <==> Repairs(crew, maxRepairLoops, r, round)
      ensures Valid() && script == old(script) + ReviewScript(crew, r, round)
    {
      var reportA, reportB := crew.finalCriticA(r, results), crew.finalCriticB(r, results);
      Listen([reportA, reportB], crew.finalReviewOrder(r));
      var a, b := reportA.outcome, reportB.outcome;
      round := Round(repairContext, results, reports, a, b);
      EmitVerdicts(crew, FinalReview, a, b);
      if crew.cancelledAfterReview(r) || EndsReview(a) || EndsReview(b) {
        return round, false;
      }
      again := ShouldRepairDecision(crew.verdict(a), crew.verdict(b), r, maxRepairLoops);
    }

    /** Behind `repaired` rounds the workers have developed on the given feedback and await the review. */
    ghost predicate Developed(
      crew: Crew, plan: Plan, start: seq<Step>, repaired: seq<Round>, repairContext: Option<string>,
      results: seq<TaskOutcome>, reports: seq<seq<Report>>)
      reads this
    {
      var r := |repaired|;
      && Valid() && AreRepaired(crew, maxRepairLoops, plan, repaired)
      && repairContext == FeedbackBefore(crew, repaired)
      && IsDevelopment(plan, repairContext, crew.workers(r), crew.cancelled(r), results, reports)
      && script == start + LoopScript(crew, maxRepairLoops, repaired)
           + DevelopedScript(crew, maxRepairLoops, repaired, reports)
    }

    /** The review completes the round of a development. */
    method ReviewDevelopment(
      crew: Crew, ghost plan: Plan, ghost start: seq<Step>, ghost repaired: seq<Round>, r: nat,
      repairContext: Option<string>, results: seq<TaskOutcome>, reports: seq<seq<Report>>)
      returns (round: Round, again: bool)
      requires Developed(crew, plan, start, repaired, repairContext, results, reports) && r == |repaired|
      modifies this`events, this`script
      ensures again ==> AreRepaired(crew, maxRepairLoops, plan, repaired + [round]) && r < maxRepairLoops
      ensures !again ==> AreRounds(crew, maxRepairLoops, plan, repaired + [round], None)
      ensures Valid() && script == start + RoundsScript(crew, maxRepairLoops, repaired + [round], None)
    {
      round, again := ReviewRound(crew, r, repairContext, results, reports);
      assert (repaired + [round])[..r] == repaired;
      RoundAdded(crew, maxRepairLoops, plan, repaired, round);
      LoopGrows(start, crew, maxRepairLoops, repaired, round);
    }

    /** The next development, on the feedback of the last round. */
    method RepairDevelopment(
      crew: Crew, plan: Plan, ghost start: seq<Step>, ghost rounds: seq<Round>, r: nat, round: Round)
      returns (repairContext: Option<string>, results: Option<seq<TaskOutcome>>, reports: seq<seq<Report>>)
      requires Valid() && |rounds| == r > 0 && round == rounds[r - 1]
      requires AreRepaired(crew, maxRepairLoops, plan, rounds)
      requires script == start + RoundsScript(crew, maxRepairLoops, rounds, None)
      modifies this`events, this`script
      ensures results.Some? ==> Developed(crew, plan, start, rounds, repairContext, results.value, reports)
      ensures results.None? ==>
        && AreRounds(crew, maxRepairLoops, plan, rounds, Some(reports))
        && script == start + RoundsScript(crew, maxRepairLoops, rounds, Some(reports))
      ensures Valid()
    {
      repairContext, results, reports := RepairRound(crew, plan, rounds, r, round);
      if results.None? {
        BrokenLater(start, crew, maxRepairLoops, plan, rounds, reports);
      }
    }

    /** Phase 7: the workers run again on the feedback of the last review. */
    method RepairRound(crew: Crew, plan: Plan, ghost earlier: seq<Round>, r: nat, round: Round)
      returns (repairContext: Option<string>, results: Option<seq<TaskOutcome>>, reports: seq<seq<Report>>)
      requires Valid() && |earlier| == r > 0 && round == earlier[r - 1]
      modifies this`events, this`script
      ensures repairContext == FeedbackBefore(crew, earlier)
      ensures results.Some? ==>
        IsDevelopment(plan, repairContext, crew.workers(r), crew.cancelled(r), results.value, reports)
      ensures results.None? ==> IsPanic(plan, repairContext, crew.workers(r), crew.cancelled(r), reports)
      ensures Valid()
      ensures script == old(script)
        + if results.Some? then DevelopedScript(crew, maxRepairLoops, earlier, reports)
          else BrokenDevelopment(crew, maxRepairLoops, earlier, reports)
    {
      ghost var start := script;
      AnnounceRepair(crew, earlier, r, round);
      repairContext := Some(crew.wording(FeedbackFor(crew, r, round)));
      results, reports := DevelopRound(crew, plan, r, repairContext);
      Appended2(start, RepairScript(crew, maxRepairLoops, earlier), DevelopScript(reports, crew.workerOrder(r)));
      if results.Some? {
        Emit(PhaseTransition(FinalReview));
        Appended3(start, RepairScript(crew, maxRepairLoops, earlier),
          DevelopScript(reports, crew.workerOrder(r)), [Say(PhaseTransition(FinalReview))]);
      }
    }

    /** The chief decides on the repair, and it is announced. */
    method AnnounceRepair(crew: Crew, ghost earlier: seq<Round>, r: nat, round: Round)
      requires Valid() && |earlier| == r > 0 && round == earlier[r - 1]
      modifies this`events, this`script
      ensures Valid() && script == old(script) + RepairScript(crew, maxRepairLoops, earlier)
    {
      Emit(PhaseTransition(Repairing));
      Listen([crew.repairChief(r, round.a, round.b)], []);
      Emit(RepairLoop(r, maxRepairLoops, crew.verdict(round.a), crew.verdict(round.b)));
      ThreeAppended(old(script), Say(PhaseTransition(Repairing)), Solo(crew.repairChief(r, round.a, round.b)),
        Say(RepairLoop(r, maxRepairLoops, crew.verdict(round.a), crew.verdict(round.b))));
    }

    /** The first development, and the transition out of it unless it panics. */
    method DevelopFirst(crew: Crew, plan: Plan)
      returns (results: Option<seq<TaskOutcome>>, reports: seq<seq<Report>>)
      requires Valid()
      modifies this`events, this`script
      ensures results.Some? ==> Developed(crew, plan, old(script), [], None, results.value, reports)
      ensures results.None? ==>
        && AreRounds(crew, maxRepairLoops, plan, [], Some(reports))
        && script == old(script) + RoundsScript(crew, maxRepairLoops, [], Some(reports))
      ensures Valid()
    {
      results, reports := DevelopRound(crew, plan, 0, None);
      if results.None? {
        BrokenAtOnce(old(script), crew, maxRepairLoops, plan, reports);
      } else {
        Emit(PhaseTransition(FinalReview));
        FirstDevelopment(old(script), crew, maxRepairLoops, reports);
      }
    }

    /**
     * Phases 5 to 7; `rounds` lists the developments with their reviews. There is no last round if a
     * development panics; `broken` are then its workers.
     */
    method DevelopAndReview(crew: Crew, plan: Plan)
      returns (last: Option<Round>, ghost rounds: seq<Round>, ghost broken: Option<seq<seq<Report>>>)
      requires Valid()
      modifies this`events, this`script
      ensures AreRounds(crew, maxRepairLoops, plan, rounds, broken)
      ensures last == if broken.None? then Some(rounds[|rounds| - 1]) else None
      ensures Valid() && script == old(script) + RoundsScript(crew, maxRepairLoops, rounds, broken)
    {
      ghost var start := script;
      var repairContext: Option<string> := None;
      var workerResults, reports := DevelopFirst(crew, plan);
      if workerResults.None? {
        return None, [], Some(reports);
      }
      var loopCount: nat := 0;
      ghost var repaired: seq<Round> := [];
      while true
        invariant |repaired| == loopCount <= maxRepairLoops
        invariant workerResults.Some?
        invariant Developed(crew, plan, start, repaired, repairContext, workerResults.value, reports)
        decreases maxRepairLoops - loopCount
      {
        var round, again := ReviewDevelopment(
          crew, plan, start, repaired, loopCount, repairContext, workerResults.value, reports);
        rounds := repaired + [round];
        if !again {
          return Some(round), rounds, None;
        }
        loopCount := loopCount + 1;
        repairContext, workerResults, reports := RepairDevelopment(crew, plan, start, rounds, loopCount, round);
        if workerResults.None? {
          return None, rounds, Some(reports);
        }
        repaired := rounds;
      }
    }

    /** Phases 1 to 4, up to the transition into Phase 5. */
    method PlanAndDispatch(crew: Crew, roundA: PlanDoc, roundB: PlanDoc, roundC: PlanDoc, updated: PlanDoc)
      returns (doc: PlanDoc, ghost planned: seq<WorkerTask>)
      requires Valid() && roundA != roundB && roundA != roundC && roundA != updated
      modifies this`events, this`script, roundA
      ensures doc == roundA
      ensures IsPlanned(old(roundA.tasks), roundB.tasks, roundC.tasks, planned)
      ensures doc.tasks == (if Confirms(updated.tasks) then updated.tasks else planned)
      ensures doc.architecture == FinalArchitecture(
        old(roundA.architecture), roundB.architecture, roundC.architecture, updated)
      ensures Valid() && script == old(script) + OpeningScript(crew, planned)
    {
      ClarifyAndPlan(crew);
      ghost var planning := script;
      doc := PlanInThreeRounds(roundA, roundB, roundC);
      planned := doc.tasks;
      ReviewAndDispatch(crew, doc.tasks);
      OpeningInOrder(old(script), planning, script, crew, planned);
      ApplyDispatch(doc, updated);
    }

    /** The agents and announcements of phases 1 and 2. */
    method ClarifyAndPlan(crew: Crew)
      requires Valid()
      modifies this`events, this`script
      ensures Valid() && script == old(script) + PlanningScript(crew)
    {
      Emit(PhaseTransition(Requirement));
      Listen([crew.clarify], []);
      PlanThreeTimes(crew);
      TwoAppended(old(script), Say(PhaseTransition(Requirement)), Solo(crew.clarify));
      Appended2(old(script), [Say(PhaseTransition(Requirement)), Solo(crew.clarify)],
        [Say(PhaseTransition(Planning)), Solo(crew.planA), Solo(crew.planB), Solo(crew.planC)]);
    }

    method PlanThreeTimes(crew: Crew)
      requires Valid()
      modifies this`events, this`script
      ensures Valid()
      ensures script == old(script)
        + [Say(PhaseTransition(Planning)), Solo(crew.planA), Solo(crew.planB), Solo(crew.planC)]
    {
      Emit(PhaseTransition(Planning));
      Listen([crew.planA], []);
      Listen([crew.planB], []);
      Listen([crew.planC], []);
      ThreeAppended(old(script), Say(PhaseTransition(Planning)), Solo(crew.planA), Solo(crew.planB));
      Appended2(old(script), [Say(PhaseTransition(Planning)), Solo(crew.planA), Solo(crew.planB)], [Solo(crew.planC)]);
    }

    /** The agents and announcements of phases 3 and 4. */
    method ReviewAndDispatch(crew: Crew, planned: seq<WorkerTask>)
      requires Valid()
      modifies this`events, this`script
      ensures Valid() && script == old(script) + DispatchScript(crew, planned)
    {
      Emit(PhaseTransition(PlanReview));
      var a, b := crew.planCriticA(planned), crew.planCriticB(planned);
      Listen([a, b], crew.planReviewOrder);
      EmitVerdicts(crew, PlanReview, a.outcome, b.outcome);
      ConfirmPlan(crew);
      TwoAppended(old(script), Say(PhaseTransition(PlanReview)), Hear([a, b], crew.planReviewOrder));
      Appended3(old(script), [Say(PhaseTransition(PlanReview)), Hear([a, b], crew.planReviewOrder)],
        SayAll(PlanVerdicts(crew, planned)),
        [Say(PhaseTransition(Dispatch)), Solo(crew.dispatch), Say(PhaseTransition(Developing))]);
    }

    /** The chief confirms the plan, and Phase 5 begins. */
    method ConfirmPlan(crew: Crew)
      requires Valid()
      modifies this`events, this`script
      ensures Valid()
      ensures script
        == old(script) + [Say(PhaseTransition(Dispatch)), Solo(crew.dispatch), Say(PhaseTransition(Developing))]
    {
      Emit(PhaseTransition(Dispatch));
      Listen([crew.dispatch], []);
      Emit(PhaseTransition(Developing));
      ThreeAppended(
        old(script), Say(PhaseTransition(Dispatch)), Solo(crew.dispatch), Say(PhaseTransition(Developing)));
    }

    /** Phase 8: the chief presents the results of the last round. */
    method Deliver(crew: Crew, last: Round, taskCount: nat) returns (summary: Summary)
      requires Valid()
      modifies this`events, this`script
      ensures IsFinalSummary(crew, last, crew.deliveryChief(last.results).outcome, taskCount, summary)
      ensures Valid() && script == old(script) + ClosingScript(crew, last, summary)
    {
      Emit(PhaseTransition(Delivery));
      var report := crew.deliveryChief(last.results);
      Listen([report], []);
      var delivery := report.outcome;
      var body;
      if delivery.summary.Some? && delivery.summary.value != "" {
        body := ChiefText(delivery.summary.value);
        assert DeliveryTexts(delivery)[0] == body.text;
      } else if delivery.text != "" {
        body := ChiefText(delivery.text);
        assert DeliveryTexts(delivery)[1] == body.text;
      } else {
        body := NothingDelivered(taskCount);
      }
      summary := Delivered(last.a.roleId, crew.verdict(last.a), last.b.roleId, crew.verdict(last.b), body);
      Emit(WorkflowDone(
        TerminalDoneStatus(crew.verdict(last.a), crew.verdict(last.b), last.a.roleId, last.b.roleId), summary));
    }

    /**
     * The whole run. The plan documents are what the chief's answers of the three planning rounds and
     * of the dispatch parse to. There is no summary if a development panics.
     */
    method Run(crew: Crew, roundA: PlanDoc, roundB: PlanDoc, roundC: PlanDoc, updated: PlanDoc)
      returns (
        summary: Option<Summary>, ghost planned: seq<WorkerTask>, ghost plan: Plan, ghost rounds: seq<Round>,
        ghost broken: Option<seq<seq<Report>>>)
      requires Valid() && roundA != roundB && roundA != roundC && roundA != updated
      modifies this`events, this`script, roundA
      ensures Valid()
      ensures crew.notConfigured.Some? ==>
        && summary == Some(NotConfigured(crew.notConfigured.value))
        && script == old(script) + [Say(WorkflowDone(RoleNotConfigured, summary.value))]
        && unchanged(roundA)
      ensures crew.notConfigured.None? ==>
        && IsPlanned(old(roundA.tasks), roundB.tasks, roundC.tasks, planned)
        && plan.tasks == (if Confirms(updated.tasks) then updated.tasks else planned)
        && plan.architecture == FinalArchitecture(
             old(roundA.architecture), roundB.architecture, roundC.architecture, updated)
        && AreRounds(crew, maxRepairLoops, plan, rounds, broken)
        && (summary.Some? <==> broken.None?)
      ensures crew.notConfigured.None? && broken.None? ==>
        && IsFinalSummary(crew, rounds[|rounds| - 1],
             crew.deliveryChief(rounds[|rounds| - 1].results).outcome, |plan.tasks|, summary.value)
        && script == old(script) + Script(crew, maxRepairLoops, planned, rounds, summary.value)
      ensures crew.notConfigured.None? && broken.Some? ==>
        script == old(script) + BrokenScript(crew, maxRepairLoops, planned, rounds, broken.value)
    {
      planned, rounds, plan, broken := [], [], Plan("", []), None;
      if crew.notConfigured.Some? {
        summary := Some(NotConfigured(crew.notConfigured.value));
        Emit(WorkflowDone(RoleNotConfigured, summary.value));
        return;
      }
      var doc;
      doc, planned := PlanAndDispatch(crew, roundA, roundB, roundC, updated);
      var confirmed := Plan(doc.architecture, doc.tasks);
      plan := confirmed;
      var last;
      last, rounds, broken := DevelopAndReview(crew, confirmed);
      if last.None? {
        Appended3(old(script), OpeningScript(crew, planned), LoopScript(crew, maxRepairLoops, rounds),
          BrokenDevelopment(crew, maxRepairLoops, rounds, broken.value));
        Appended2(old(script) + OpeningScript(crew, planned), LoopScript(crew, maxRepairLoops, rounds),
          BrokenDevelopment(crew, maxRepairLoops, rounds, broken.value));
        return None, planned, plan, rounds, broken;
      }
      var delivered := Deliver(crew, last.value, |confirmed.tasks|);
      summary := Some(delivered);
      Appended3(old(script), OpeningScript(crew, planned), LoopScript(crew, maxRepairLoops, rounds),
        ClosingScript(crew, last.value, delivered));
    }
  }

  // ---------------------------------------------------------------- the steps one by one

  lemma StreamSnoc(script: seq<Step>, step: Step)
    ensures StreamOf(script + [step]) == StreamOf(script) + StepEvents(step)
  {
    assert (script + [step])[..|script|] == script;
  }

  lemma StreamOfLonger(a: seq<Step>, front: seq<Step>, last: Step)
    requires StreamOf(a + front) == StreamOf(a) + StreamOf(front)
    ensures StreamOf(a + (front + [last])) == StreamOf(a) + StreamOf(front + [last])
  {
    calc {
      StreamOf(a + (front + [last]));
      { Associates(a, front, [last]); }
      StreamOf((a + front) + [last]);
      { StreamSnoc(a + front, last); }
      (StreamOf(a) + StreamOf(front)) + StepEvents(last);
      { Associates(StreamOf(a), StreamOf(front), StepEvents(last)); }
      StreamOf(a) + (StreamOf(front) + StepEvents(last));
      { StreamSnoc(front, last); }
      StreamOf(a) + StreamOf(front + [last]);
    }
  }

  lemma {:induction false} StreamConcat(a: seq<Step>, b: seq<Step>)
    ensures StreamOf(a + b) == StreamOf(a) + StreamOf(b)
  {
    if b == [] {
      assert a + b == a;
    } else {
      var front, last := b[..|b| - 1], b[|b| - 1];
      StreamConcat(a, front);
      StreamOfLonger(a, front, last);
      assert b == front + [last];
    }
  }

  lemma TwoAppended(start: seq<Step>, x: Step, y: Step)
    ensures start + [x] + [y] == start + [x, y]
  {
  }

  lemma ThreeAppended(start: seq<Step>, x: Step, y: Step, z: Step)
    ensures start + [x] + [y] + [z] == start + [x, y, z]
  {
  }

  lemma Appended2(start: seq<Step>, a: seq<Step>, b: seq<Step>)
    ensures start + a + b == start + (a + b)
  {
  }

  lemma Appended3(start: seq<Step>, a: seq<Step>, b: seq<Step>, c: seq<Step>)
    ensures start + a + b + c == start + (a + b + c)
  {
  }

  lemma FromAgentsConcat(a: seq<Signal>, b: seq<Signal>)
    ensures FromAgents(a + b) == FromAgents(a) + FromAgents(b)
  {
  }

  lemma {:induction false} DevelopmentSends(reports: seq<seq<Report>>, order: nat -> seq<nat>)
    ensures StreamOf(DevelopScript(reports, order)) == FromAgents(SentByStages(reports, order))
  {
    if reports != [] {
      var n := |reports| - 1;
      DevelopmentSends(reports[..n], order);
      StreamSnoc(DevelopScript(reports[..n], order), Hear(reports[n], order(n)));
      FromAgentsConcat(SentByStages(reports[..n], order), Interleave(Sents(reports[n]), order(n)));
    }
  }

  lemma StreamOfDevelopment(script: seq<Step>, reports: seq<seq<Report>>, order: nat -> seq<nat>)
    ensures StreamOf(script + DevelopScript(reports, order))
      == StreamOf(script) + FromAgents(SentByStages(reports, order))
  {
    StreamConcat(script, DevelopScript(reports, order));
    DevelopmentSends(reports, order);
  }

  function PlanningScript(crew: Crew): seq<Step> {
    [Say(PhaseTransition(Requirement)), Solo(crew.clarify)]
    + [Say(PhaseTransition(Planning)), Solo(crew.planA), Solo(crew.planB), Solo(crew.planC)]
  }

  function DispatchScript(crew: Crew, planned: seq<WorkerTask>): seq<Step> {
    [Say(PhaseTransition(PlanReview)),
     Hear([crew.planCriticA(planned), crew.planCriticB(planned)], crew.planReviewOrder)]
    + SayAll(PlanVerdicts(crew, planned))
    + [Say(PhaseTransition(Dispatch)), Solo(crew.dispatch), Say(PhaseTransition(Developing))]
  }

  lemma OpeningInOrder(
    start: seq<Step>, planning: seq<Step>, end: seq<Step>, crew: Crew, planned: seq<WorkerTask>)
    requires planning == start + PlanningScript(crew) && end == planning + DispatchScript(crew, planned)
    ensures end == start + OpeningScript(crew, planned)
  {
    assert PlanningScript(crew) + DispatchScript(crew, planned) == OpeningScript(crew, planned);
  }

  /** What phases 5 to 7 add. */
  function RoundsScript(
    crew: Crew, max: nat, rounds: seq<Round>, broken: Option<seq<seq<Report>>>): seq<Step>
  {
    match broken
    case None => LoopScript(crew, max, rounds)
    case Some(reports) => LoopScript(crew, max, rounds) + BrokenDevelopment(crew, max, rounds, reports)
  }

  lemma BrokenAtOnce(start: seq<Step>, crew: Crew, max: nat, plan: Plan, reports: seq<seq<Report>>)
    requires IsPanic(plan, None, crew.workers(0), crew.cancelled(0), reports)
    ensures AreRounds(crew, max, plan, [], Some(reports))
    ensures start + DevelopScript(reports, crew.workerOrder(0))
      == start + RoundsScript(crew, max, [], Some(reports))
  {
    var develop := DevelopScript(reports, crew.workerOrder(0));
    assert [] + develop == develop;
  }

  lemma BrokenLater(
    start: seq<Step>, crew: Crew, max: nat, plan: Plan, rounds: seq<Round>, reports: seq<seq<Report>>)
    requires AreRepaired(crew, max, plan, rounds)
    requires
      IsPanic(plan, FeedbackBefore(crew, rounds), crew.workers(|rounds|), crew.cancelled(|rounds|), reports)
    ensures AreRounds(crew, max, plan, rounds, Some(reports))
    ensures start + LoopScript(crew, max, rounds) + BrokenDevelopment(crew, max, rounds, reports)
      == start + RoundsScript(crew, max, rounds, Some(reports))
  {
    Appended2(start, LoopScript(crew, max, rounds), BrokenDevelopment(crew, max, rounds, reports));
  }

  lemma FirstDevelopment(start: seq<Step>, crew: Crew, max: nat, reports: seq<seq<Report>>)
    ensures start + DevelopScript(reports, crew.workerOrder(0)) + [Say(PhaseTransition(FinalReview))]
      == start + LoopScript(crew, max, []) + DevelopedScript(crew, max, [], reports)
  {
    assert [] + DevelopScript(reports, crew.workerOrder(0)) == DevelopScript(reports, crew.workerOrder(0));
  }

  /** The review completes the script of a round. */
  lemma LoopGrows(start: seq<Step>, crew: Crew, max: nat, repaired: seq<Round>, last: Round)
    ensures start + LoopScript(crew, max, repaired) + DevelopedScript(crew, max, repaired, last.reports)
        + ReviewScript(crew, |repaired|, last)
      == start + LoopScript(crew, max, repaired + [last])
  {
    assert (repaired + [last])[..|repaired|] == repaired;
  }

  lemma RoundAdded(crew: Crew, max: nat, plan: Plan, repaired: seq<Round>, last: Round)
    requires AreRepaired(crew, max, plan, repaired)
    requires IsRound(crew, plan, repaired + [last], |repaired|)
    ensures !Repairs(crew, max, |repaired|, last) ==> IsLoop(crew, max, plan, repaired + [last])
    ensures Repairs(crew, max, |repaired|, last) ==> AreRepaired(crew, max, plan, repaired + [last])
  {
    var rounds := repaired + [last];
    forall r: nat | r < |repaired|
      ensures IsRound(crew, plan, rounds, r) && Repairs(crew, max, r, rounds[r])
    {
      assert IsRound(crew, plan, repaired, r);
      assert rounds[..r] == repaired[..r];
    }
  }
}
