// Two runs of a one-task plan on which every agent but one finishes at once: in the first the delivery
// times out, in the second the worker does, behind a text that cannot be cut at byte 300.
module WorkflowInstances {
  import opened Text
  import opened Staging
  import opened PlanMerge
  import opened AgentLoop
  import opened AgentRuns
  import opened Candidates
  import opened AgentReports
  import opened Develop
  import opened Workflow
  import WorkflowTheorems
  import WorkflowStream

  // ---------------------------------------------------------------- the agents

  /** An agent run with a single candidate. */
  function SingleRun(roleId: string, roleDisplay: string, a: Attempt): AgentRun {
    AgentRun(roleId, roleDisplay, Candidates.Candidates([Candidate("p", "m", "s")]), _ => a)
  }

  /** An agent that answers at once. */
  function Answers(text: string): Attempt {
    Attempt([TextDelta(text), Done(StatusDone, ModelText(text))], NoInterruption)
  }

  /** An agent that times out behind a text. */
  function TimesOutBehind(text: string): Attempt {
    Attempt([TextDelta(text)], TimedOutAfter(1))
  }

  function Chief(text: string): Report {
    ReportOf(SingleRun("agent:chief", "主理", Answers(text)))
  }

  function CriticA(): Report {
    ReportOf(SingleRun("agent:critic:a", "找茬", Answers("PASS")))
  }

  function CriticB(): Report {
    ReportOf(SingleRun("agent:critic:b", "审查", Answers("PASS")))
  }

  function Worker(a: Attempt): Report {
    ReportOf(SingleRun("agent:worker", "实施", a))
  }

  lemma SingleReport(roleId: string, roleDisplay: string, a: Attempt)
    ensures var r := ReportOf(SingleRun(roleId, roleDisplay, a));
      && IsReport(r)
      && r.interruptions == (if Interrupted(a) then 1 else 0)
      && r.outcome.roleId == roleId
      && r.outcome.text == AllText(ReceivedBy(a))
      && (SplitsCharacter(r.outcome) <==> StrandsCharacter(a))
  {
    var run := SingleRun(roleId, roleDisplay, a);
    assert TriedCount(run) == 1;
    assert InterruptedOfFirst(run, 1) == InterruptedOfFirst(run, 0) + if Interrupted(a) then 1 else 0;
    CutSplitsCharacterIff(run);
  }

  lemma TextOfOne(text: string)
    ensures AllText([TextDelta(text)]) == text
  {
    assert [TextDelta(text)][..0] == [];
  }

  lemma AnswerIsReceived(text: string)
    ensures var a := Answers(text);
      !Interrupted(a) && AllText(ReceivedBy(a)) == text && !EndsWithoutSummary(a)
  {
    var events := Answers(text).events;
    assert events[1..] == [events[1]] && events[..1] == [events[0]];
    assert UntilDone(events[1..]) == [events[1]];
    assert UntilDone(events) == events;
    TextOfOne(text);
  }

  lemma TimeoutIsReceived(text: string)
    ensures var a := TimesOutBehind(text);
      Interrupted(a) && AllText(ReceivedBy(a)) == text && EndsWithoutSummary(a)
  {
    var events := TimesOutBehind(text).events;
    assert events[1..] == [];
    assert UntilDone(events) == events && events[..1] == events;
    TextOfOne(text);
  }

  // ---------------------------------------------------------------- the crew

  const TASK := WorkerTask("a", "", "", "", [], "", "")
  const PLAN := Plan("", [TASK])

  /** Chief and critics answer; the worker and the chief's delivery are given. */
  function CrewOf(worker: Report, delivery: Report): Crew {
    Crew(None, Chief("OK"), Chief("{\"tasks\":[{\"id\":\"a\"}]}"), Chief("{\"summary\":\"b\"}"), Chief("{\"summary\":\"c\"}"),
      _ => CriticA(), _ => CriticB(), [], Chief("OK"), _ => _ => worker, _ => _ => [], _ => _ => false,
      (_, _) => CriticA(), (_, _) => CriticB(), _ => [], _ => false, (_, _, _) => Chief("OK"), _ => delivery,
      (o: TaskOutcome) => if o.text == "PASS" then Pass else Unknown, _ => [], _ => "")
  }

  lemma ChiefAnswers(text: string)
    ensures IsReport(Chief(text)) && Chief(text).interruptions == 0
  {
    AnswerIsReceived(text);
    SingleReport("agent:chief", "主理", Answers(text));
  }

  lemma CriticsPass()
    ensures IsReport(CriticA()) && CriticA().interruptions == 0 && CriticA().outcome.text == "PASS"
    ensures IsReport(CriticB()) && CriticB().interruptions == 0 && CriticB().outcome.text == "PASS"
  {
    AnswerIsReceived("PASS");
    SingleReport("agent:critic:a", "找茬", Answers("PASS"));
    SingleReport("agent:critic:b", "审查", Answers("PASS"));
  }

  lemma CrewReports(worker: Report, delivery: Report)
    requires IsReport(worker) && IsReport(delivery)
    ensures AgentsReport(CrewOf(worker, delivery))
  {
    CriticsPass();
    ChiefAnswers("OK");
    ChiefAnswers("{\"tasks\":[{\"id\":\"a\"}]}");
    ChiefAnswers("{\"summary\":\"b\"}");
    ChiefAnswers("{\"summary\":\"c\"}");
  }

  /** The first planning round lists the task and the others none. */
  lemma TaskIsPlanned()
    ensures IsPlanned([TASK], [], [], [TASK])
  {
    assert TASK in [TASK] && TASK.id != FALLBACK_ID by {
      assert |FALLBACK_ID| == 12;
    }
    assert IsMerge([TASK], [], [TASK]);
    assert [TASK][1..] == [];
    assert WithoutId([TASK][1..], FALLBACK_ID) == [];
    assert WithoutId([TASK], FALLBACK_ID) == [TASK];
    assert DropPlaceholder([TASK]) == [TASK];
  }

  lemma TaskIsStaged()
    ensures IsStaging([TASK], [[0]]) && HoldTasks([TASK], [[0]])
  {
    var tasks, stages: seq<seq<nat>> := [TASK], [[0]];
    assert Placed(stages, 0) == {};
    assert stages[0][0] == 0 && 0 in Placed(stages, 1);
    assert forall d :: !Needs(tasks, 0, d);
    assert NormalStage(tasks, stages, 0);
  }

  /** The only task of the plan runs once, on no lines. */
  lemma WorkerOnly(worker: Launch -> Report, r: Report)
    requires forall launch :: worker(launch) == r
    ensures HoldTasks([TASK], [[0]])
    ensures ReportsBefore(PLAN, [[0]], 1, None, worker) == [[r]]
    ensures OutcomeIn(PLAN, [[0]], 0, 0, None, worker) == r.outcome
    ensures PanicsIn(PLAN, [[0]], 0, None, worker) <==> SplitsCharacter(r.outcome)
  {
    TaskIsStaged();
    var stages: seq<seq<nat>> := [[0]];
    assert stages[0][0] == 0;
    assert ReportsBefore(PLAN, stages, 0, None, worker) == [];
    var lines := LinesBefore(PLAN, stages, 0, None, worker);
    var reports := StageReports(stages[0], 0, 1, None, lines, worker);
    assert reports[0] == worker(LaunchOf(0, 1, 0, None, lines)) == r;
    assert reports == [r];
  }

  lemma WorkerFinishes(worker: Launch -> Report, cancelled: nat -> bool, r: Report)
    requires (forall launch :: worker(launch) == r) && !cancelled(0) && !SplitsCharacter(r.outcome)
    ensures IsDevelopment(PLAN, None, worker, cancelled, [r.outcome], [[r]])
  {
    var stages: seq<seq<nat>>, slots := [[0]], [Some(r.outcome)];
    TaskIsStaged();
    WorkerOnly(worker, r);
    assert stages[0][0] == 0 && 0 in Placed(stages, 1);
    assert SlotsAfter(PLAN, stages, 1, None, worker, slots);
    assert Develops(PLAN, None, worker, cancelled, stages, 1, slots);
    assert slots[1..] == [] && Present(slots) == [r.outcome];
  }

  lemma WorkerPanics(worker: Launch -> Report, cancelled: nat -> bool, r: Report)
    requires (forall launch :: worker(launch) == r) && !cancelled(0) && SplitsCharacter(r.outcome)
    ensures IsPanic(PLAN, None, worker, cancelled, [[r]])
  {
    TaskIsStaged();
    WorkerOnly(worker, r);
    assert BreaksOff(PLAN, None, worker, cancelled, [[0]], 0);
  }

  // ---------------------------------------------------------------- a delivery that times out

  function OnlyRound(worker: Report): Round {
    Round(None, [worker.outcome], [[worker]], CriticA().outcome, CriticB().outcome)
  }

  lemma OneRoundPasses(worker: Report, delivery: Report, max: nat)
    requires !SplitsCharacter(worker.outcome)
    ensures IsLoop(CrewOf(worker, delivery), max, PLAN, [OnlyRound(worker)])
  {
    CriticsPass();
    OneRoundIsLoop(CrewOf(worker, delivery), worker, OnlyRound(worker), max);
  }

  lemma OneRoundIsLoop(crew: Crew, worker: Report, round: Round, max: nat)
    requires (forall launch :: crew.workers(0)(launch) == worker) && !crew.cancelled(0)(0)
    requires !SplitsCharacter(worker.outcome)
    requires round == Round(None, [worker.outcome], [[worker]],
      crew.finalCriticA(0, [worker.outcome]).outcome, crew.finalCriticB(0, [worker.outcome]).outcome)
    requires crew.verdict(round.a).Pass? && crew.verdict(round.b).Pass?
    ensures IsLoop(crew, max, PLAN, [round])
  {
    WorkerFinishes(crew.workers(0), crew.cancelled(0), worker);
    assert [round][..0] == [];
    assert IsRound(crew, PLAN, [round], 0);
  }

  lemma OneReport(r: Report)
    ensures TotalInterruptions([r]) == r.interruptions
  {
    assert [r][1..] == [];
  }

  ghost predicate Quiet(script: seq<Step>) {
    TotalInterruptions(WorkflowStream.Heard(script)) == 0
  }

  lemma QuietConcat(a: seq<Step>, b: seq<Step>)
    requires Quiet(a) && Quiet(b)
    ensures Quiet(a + b)
  {
    WorkflowStream.SaysConcat(a, b);
    WorkflowStream.TotalConcat(WorkflowStream.Heard(a), WorkflowStream.Heard(b));
  }

  lemma QuietSays(events: seq<WorkflowEvent>)
    ensures Quiet(SayAll(events))
  {
    WorkflowStream.SaysAll(events);
  }

  lemma QuietSay(e: WorkflowEvent)
    ensures Quiet([Say(e)])
  {
    WorkflowStream.OneStep(Say(e));
  }

  lemma QuietHear(reports: seq<Report>, order: seq<nat>)
    requires forall k :: 0 <= k < |reports| ==> reports[k].interruptions == 0
    ensures Quiet([Hear(reports, order)])
  {
    WorkflowStream.OneStep(Hear(reports, order));
    assert WorkflowStream.Heard([Hear(reports, order)]) == reports;
  }

  lemma QuietTask(e: WorkflowEvent, r: Report)
    requires r.interruptions == 0
    ensures Quiet([Say(e), Solo(r)])
  {
    WorkflowStream.TwoSteps(Say(e), Solo(r));
  }

  lemma QuietPlans(e: WorkflowEvent, a: Report, b: Report, c: Report)
    requires a.interruptions == 0 && b.interruptions == 0 && c.interruptions == 0
    ensures Quiet([Say(e), Solo(a), Solo(b), Solo(c)])
  {
    WorkflowStream.FourSteps(Say(e), Solo(a), Solo(b), Solo(c));
  }

  /** Chief and critics are not interrupted before the delivery. */
  ghost predicate QuietCrew(crew: Crew) {
    && crew.clarify.interruptions == 0 && crew.dispatch.interruptions == 0
    && crew.planA.interruptions == 0 && crew.planB.interruptions == 0 && crew.planC.interruptions == 0
    && crew.planCriticA([TASK]).interruptions == 0 && crew.planCriticB([TASK]).interruptions == 0
    && forall results ::
         crew.finalCriticA(0, results).interruptions == 0 && crew.finalCriticB(0, results).interruptions == 0
  }

  lemma CrewIsQuiet(worker: Report, delivery: Report)
    ensures QuietCrew(CrewOf(worker, delivery))
  {
    CriticsPass();
    ChiefAnswers("OK");
    ChiefAnswers("{\"tasks\":[{\"id\":\"a\"}]}");
    ChiefAnswers("{\"summary\":\"b\"}");
    ChiefAnswers("{\"summary\":\"c\"}");
  }

  lemma QuietOpening(crew: Crew)
    requires QuietCrew(crew)
    ensures Quiet(OpeningScript(crew, [TASK]))
  {
    QuietTask(PhaseTransition(Requirement), crew.clarify);
    QuietPlans(PhaseTransition(Planning), crew.planA, crew.planB, crew.planC);
    QuietConcat([Say(PhaseTransition(Requirement)), Solo(crew.clarify)],
      [Say(PhaseTransition(Planning)), Solo(crew.planA), Solo(crew.planB), Solo(crew.planC)]);
    QuietDispatch(crew);
    QuietConcat(PlanningScript(crew), DispatchScript(crew, [TASK]));
    OpeningInOrder([], PlanningScript(crew), PlanningScript(crew) + DispatchScript(crew, [TASK]), crew, [TASK]);
    assert [] + OpeningScript(crew, [TASK]) == OpeningScript(crew, [TASK]);
  }

  lemma QuietReview(e: WorkflowEvent, a: Report, b: Report, order: seq<nat>)
    requires a.interruptions == 0 && b.interruptions == 0
    ensures Quiet([Say(e), Hear([a, b], order)])
  {
    WorkflowStream.TwoSteps(Say(e), Hear([a, b], order));
  }

  lemma QuietConfirm(e: WorkflowEvent, r: Report, f: WorkflowEvent)
    requires r.interruptions == 0
    ensures Quiet([Say(e), Solo(r), Say(f)])
  {
    WorkflowStream.ThreeSteps(Say(e), Solo(r), Say(f));
  }

  lemma QuietDispatch(crew: Crew)
    requires QuietCrew(crew)
    ensures Quiet(DispatchScript(crew, [TASK]))
  {
    var a, b := crew.planCriticA([TASK]), crew.planCriticB([TASK]);
    QuietReview(PhaseTransition(PlanReview), a, b, crew.planReviewOrder);
    QuietSays(PlanVerdicts(crew, [TASK]));
    QuietConfirm(PhaseTransition(Dispatch), crew.dispatch, PhaseTransition(Developing));
    QuietConcat(
      [Say(PhaseTransition(PlanReview)), Hear([a, b], crew.planReviewOrder)], SayAll(PlanVerdicts(crew, [TASK])));
    QuietConcat(
      [Say(PhaseTransition(PlanReview)), Hear([a, b], crew.planReviewOrder)] + SayAll(PlanVerdicts(crew, [TASK])),
      [Say(PhaseTransition(Dispatch)), Solo(crew.dispatch), Say(PhaseTransition(Developing))]);
  }

  lemma DevelopedOnly(crew: Crew, max: nat, worker: Report)
    ensures var order := crew.workerOrder(0);
      && DevelopScript([[worker]], order) == [Hear([worker], order(0))]
      && DevelopedScript(crew, max, [], [[worker]]) == [Hear([worker], order(0)), Say(PhaseTransition(FinalReview))]
      && BrokenDevelopment(crew, max, [], [[worker]]) == [Hear([worker], order(0))]
  {
    var order, reports := crew.workerOrder(0), [[worker]];
    assert reports[..0] == [] && DevelopScript([], order) == [];
    assert DevelopScript(reports, order) == [] + [Hear([worker], order(0))];
  }

  lemma QuietRound(crew: Crew, max: nat, worker: Report, round: Round)
    requires QuietCrew(crew) && worker.interruptions == 0 && round.reports == [[worker]]
    ensures Quiet(LoopScript(crew, max, [round]))
  {
    var develop, review := DevelopedScript(crew, max, [], [[worker]]), ReviewScript(crew, 0, round);
    var a, b := crew.finalCriticA(0, round.results), crew.finalCriticB(0, round.results);
    DevelopedOnly(crew, max, worker);
    QuietHear([worker], crew.workerOrder(0)(0));
    QuietSay(PhaseTransition(FinalReview));
    QuietConcat([Hear([worker], crew.workerOrder(0)(0))], [Say(PhaseTransition(FinalReview))]);
    QuietHear([a, b], crew.finalReviewOrder(0));
    QuietSays(Verdicts(crew, FinalReview, round.a, round.b));
    QuietConcat([Hear([a, b], crew.finalReviewOrder(0))], SayAll(Verdicts(crew, FinalReview, round.a, round.b)));
    QuietConcat(develop, review);
    OneRoundScript(crew, max, round);
  }

  lemma OneRoundScript(crew: Crew, max: nat, round: Round)
    ensures LoopScript(crew, max, [round])
      == DevelopedScript(crew, max, [], round.reports) + ReviewScript(crew, 0, round)
  {
    assert [round][..0] == [];
    assert [] + DevelopedScript(crew, max, [], round.reports) == DevelopedScript(crew, max, [], round.reports);
  }

  /** Of a run of one round only the delivery may be interrupted. */
  lemma HeardInRun(crew: Crew, max: nat, worker: Report, round: Round, summary: Workflow.Summary)
    requires QuietCrew(crew) && worker.interruptions == 0 && round.reports == [[worker]]
    ensures TotalInterruptions(WorkflowStream.Heard(Script(crew, max, [TASK], [round], summary)))
      == crew.deliveryChief(round.results).interruptions
  {
    var opening, loop := OpeningScript(crew, [TASK]), LoopScript(crew, max, [round]);
    QuietOpening(crew);
    QuietRound(crew, max, worker, round);
    QuietConcat(opening, loop);
    HeardAtTheEnd(crew, round, summary);
    WorkflowStream.SaysConcat(opening + loop, ClosingScript(crew, round, summary));
    WorkflowStream.TotalConcat(
      WorkflowStream.Heard(opening + loop), WorkflowStream.Heard(ClosingScript(crew, round, summary)));
  }

  lemma HeardAtTheEnd(crew: Crew, last: Round, summary: Workflow.Summary)
    ensures TotalInterruptions(WorkflowStream.Heard(ClosingScript(crew, last, summary)))
      == crew.deliveryChief(last.results).interruptions
  {
    var s := ClosingScript(crew, last, summary);
    WorkflowStream.ThreeSteps(s[0], s[1], s[2]);
    OneReport(crew.deliveryChief(last.results));
  }

  /** Every agent answers but the chief, who times out on the delivery. */
  function LateDelivery(): Crew {
    CrewOf(Worker(Answers("done")), ReportOf(SingleRun("agent:chief", "主理", TimesOutBehind(""))))
  }

  /** Then subscribers see two done events under the workflow's id. */
  lemma TwoDoneEvents(max: nat, summary: Workflow.Summary)
    ensures var crew, rounds := LateDelivery(), [OnlyRound(Worker(Answers("done")))];
      && AgentsReport(crew) && IsPlanned([TASK], [], [], [TASK]) && AreRounds(crew, max, PLAN, rounds, None)
      && WorkflowStream.OwnDoneCount(StreamOf(Script(crew, max, [TASK], rounds, summary))) == 2
  {
    var worker, delivery := Worker(Answers("done")), ReportOf(SingleRun("agent:chief", "主理", TimesOutBehind("")));
    var crew, rounds := CrewOf(worker, delivery), [OnlyRound(worker)];
    AnswerIsReceived("done");
    SingleReport("agent:worker", "实施", Answers("done"));
    TimeoutIsReceived("");
    SingleReport("agent:chief", "主理", TimesOutBehind(""));
    CrewReports(worker, delivery);
    TaskIsPlanned();
    OneRoundPasses(worker, delivery, max);
    WorkflowStream.DoneEventsOfRun(crew, max, [TASK], PLAN, rounds, None, summary);
    CrewIsQuiet(worker, delivery);
    HeardInRun(crew, max, worker, rounds[0], summary);
  }

  // ---------------------------------------------------------------- a worker that cannot be quoted

  /** 299 letters and a character of three bytes, from byte 299 to byte 301. */
  function LongText(): string {
    seq(299, _ => 'a') + "\U{E4}\U{BD}\U{A0}"
  }

  lemma LongTextIsStranded()
    ensures StrandsCharacter(TimesOutBehind(LongText()))
  {
    TimeoutIsReceived(LongText());
    assert LongText()[300] == "\U{E4}\U{BD}\U{A0}"[1];
  }

  /** Every agent answers but the worker, which times out behind that text. */
  function LateWorker(): Crew {
    CrewOf(Worker(TimesOutBehind(LongText())), Chief("OK"))
  }

  /**
   * Then the run panics in its first development: the only done event under the workflow's id is the
   * timed-out worker's, and neither the delivery nor the terminal event follows.
   */
  lemma NoTerminalEvent(max: nat, summary: Workflow.Summary)
    ensures var crew, broken := LateWorker(), Some([[Worker(TimesOutBehind(LongText()))]]);
      && var events := StreamOf(BrokenScript(crew, max, [TASK], [], broken.value));
      && AgentsReport(crew) && IsPlanned([TASK], [], [], [TASK]) && AreRounds(crew, max, PLAN, [], broken)
      && Own(PhaseTransition(Delivery)) !in events
      && (forall e: WorkflowEvent :: Own(e) in events ==> !e.WorkflowDone?)
      && WorkflowStream.OwnDoneCount(events) == 1
  {
    LongTextIsStranded();
    TimeoutIsReceived(LongText());
    SingleReport("agent:worker", "实施", TimesOutBehind(LongText()));
    TaskIsPlanned();
    PanicsAtOnce(Worker(TimesOutBehind(LongText())), max, summary);
  }

  lemma PanicsAtOnce(worker: Report, max: nat, summary: Workflow.Summary)
    requires IsReport(worker) && SplitsCharacter(worker.outcome)
    ensures var crew := CrewOf(worker, Chief("OK"));
      && var events := StreamOf(BrokenScript(crew, max, [TASK], [], [[worker]]));
      && AgentsReport(crew) && AreRounds(crew, max, PLAN, [], Some([[worker]]))
      && Own(PhaseTransition(Delivery)) !in events
      && (forall e: WorkflowEvent :: Own(e) in events ==> !e.WorkflowDone?)
      && WorkflowStream.OwnDoneCount(events) == worker.interruptions
  {
    var crew := CrewOf(worker, Chief("OK"));
    ChiefAnswers("OK");
    CrewReports(worker, Chief("OK"));
    CrewIsQuiet(worker, Chief("OK"));
    FirstDevelopmentPanics(crew, max, worker);
    PanicEndsRun(crew, max, worker, summary);
  }

  lemma FirstDevelopmentPanics(crew: Crew, max: nat, worker: Report)
    requires (forall launch :: crew.workers(0)(launch) == worker) && !crew.cancelled(0)(0)
    requires SplitsCharacter(worker.outcome)
    ensures AreRounds(crew, max, PLAN, [], Some([[worker]]))
  {
    WorkerPanics(crew.workers(0), crew.cancelled(0), worker);
  }

  /** A crew whose only worker panics at once. */
  lemma PanicEndsRun(crew: Crew, max: nat, worker: Report, summary: Workflow.Summary)
    requires AgentsReport(crew) && QuietCrew(crew) && AreRounds(crew, max, PLAN, [], Some([[worker]]))
    ensures var events := StreamOf(BrokenScript(crew, max, [TASK], [], [[worker]]));
      && Own(PhaseTransition(Delivery)) !in events
      && (forall e: WorkflowEvent :: Own(e) in events ==> !e.WorkflowDone?)
      && WorkflowStream.OwnDoneCount(events) == worker.interruptions
  {
    var broken := Some([[worker]]);
    WorkflowTheorems.BrokenIff(crew, max, PLAN, [], broken);
    WorkflowStream.TerminalEventIsSentIff(crew, max, [TASK], PLAN, [], broken, summary);
    WorkflowStream.DoneEventsOfRun(crew, max, [TASK], PLAN, [], broken, summary);
    HeardUntilThePanic(crew, worker, max);
  }

  lemma HeardUntilThePanic(crew: Crew, worker: Report, max: nat)
    requires QuietCrew(crew)
    ensures TotalInterruptions(WorkflowStream.Heard(BrokenScript(crew, max, [TASK], [], [[worker]])))
      == worker.interruptions
  {
    var opening, step := OpeningScript(crew, [TASK]), Hear([worker], crew.workerOrder(0)(0));
    QuietOpening(crew);
    DevelopedOnly(crew, max, worker);
    WorkflowStream.OneStep(step);
    OneReport(worker);
    assert WorkflowStream.Heard([step]) == [worker];
    WorkflowStream.SaysConcat(opening, [step]);
    WorkflowStream.TotalConcat(WorkflowStream.Heard(opening), [worker]);
    assert opening + [] == opening && LoopScript(crew, max, []) == [];
  }
}
