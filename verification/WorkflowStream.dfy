// What subscribers of the workflow's channel see: the orchestrator's announcements between the signals
// of the agent runs, and which of the events are done events under the workflow's id.
module WorkflowStream {
  import opened Text
  import opened Staging
  import opened AgentRuns
  import opened Candidates
  import opened AgentReports
  import opened Develop
  import opened Workflow
  import WorkflowTheorems

  function SaidBy(step: Step): seq<WorkflowEvent> {
    if step.Say? then [step.event] else []
  }

  function HeardBy(step: Step): seq<Report> {
    if step.Hear? then step.reports else []
  }

  function Says(script: seq<Step>): seq<WorkflowEvent> {
    if script == [] then [] else Says(script[..|script| - 1]) + SaidBy(script[|script| - 1])
  }

  /** The agent runs of a script. */
  function Heard(script: seq<Step>): seq<Report> {
    if script == [] then [] else Heard(script[..|script| - 1]) + HeardBy(script[|script| - 1])
  }

  /** A done event that carries the workflow's id. */
  predicate IsOwnDone(e: StreamEvent) {
    (e.Own? && e.event.WorkflowDone?) || (e.FromAgent? && e.signal.AgentDone?)
  }

  function OwnDoneCount(events: seq<StreamEvent>): nat {
    if events == [] then 0
    else OwnDoneCount(events[..|events| - 1]) + if IsOwnDone(events[|events| - 1]) then 1 else 0
  }

  function AnnouncedDoneCount(events: seq<WorkflowEvent>): nat {
    if events == [] then 0
    else AnnouncedDoneCount(events[..|events| - 1]) + if events[|events| - 1].WorkflowDone? then 1 else 0
  }

  lemma {:induction false} OwnDoneConcat(a: seq<StreamEvent>, b: seq<StreamEvent>)
    ensures OwnDoneCount(a + b) == OwnDoneCount(a) + OwnDoneCount(b)
  {
    if b == [] {
      assert a + b == a;
    } else {
      assert (a + b)[..|a + b| - 1] == a + b[..|b| - 1];
      OwnDoneConcat(a, b[..|b| - 1]);
    }
  }

  lemma {:induction false} AnnouncedDoneConcat(a: seq<WorkflowEvent>, b: seq<WorkflowEvent>)
    ensures AnnouncedDoneCount(a + b) == AnnouncedDoneCount(a) + AnnouncedDoneCount(b)
  {
    if b == [] {
      assert a + b == a;
    } else {
      assert (a + b)[..|a + b| - 1] == a + b[..|b| - 1];
      AnnouncedDoneConcat(a, b[..|b| - 1]);
    }
  }

  lemma {:induction false} FromAgentsCount(signals: seq<Signal>)
    ensures OwnDoneCount(FromAgents(signals)) == AgentDoneCount(signals)
  {
    if signals != [] {
      var front := signals[..|signals| - 1];
      FromAgentsCount(front);
      assert FromAgents(signals)[..|signals| - 1] == FromAgents(front);
    }
  }

  lemma {:induction false} TotalConcat(a: seq<Report>, b: seq<Report>)
    ensures TotalInterruptions(a + b) == TotalInterruptions(a) + TotalInterruptions(b)
  {
    if a == [] {
      assert a + b == b;
    } else {
      assert (a + b)[1..] == a[1..] + b;
      TotalConcat(a[1..], b);
    }
  }

  ghost predicate AllReports(reports: seq<Report>) {
    forall k :: 0 <= k < |reports| ==> IsReport(reports[k])
  }

  lemma AllReportsConcat(a: seq<Report>, b: seq<Report>)
    ensures AllReports(a + b) <==> AllReports(a) && AllReports(b)
  {
    assert forall k :: 0 <= k < |a| ==> (a + b)[k] == a[k];
    assert forall k :: 0 <= k < |b| ==> (a + b)[|a| + k] == b[k];
  }

  lemma StepCount(step: Step)
    requires step.Hear? ==> AllReports(step.reports)
    ensures OwnDoneCount(StepEvents(step))
      == match step
         case Say(e) => if e.WorkflowDone? then 1 else 0
         case Hear(reports, _) => TotalInterruptions(reports)
  {
    match step
    case Say(e) => assert [Own(e)][..0] == [];
    case Hear(reports, order) =>
      FromAgentsCount(Interleave(Sents(reports), order));
      OwnEndsOfGroup(reports, order);
  }

  /** The done events under the workflow's id: the announced ones and one per interrupted attempt. */
  lemma {:induction false} OwnDonesOfScript(script: seq<Step>)
    requires AllReports(Heard(script))
    ensures OwnDoneCount(StreamOf(script)) == AnnouncedDoneCount(Says(script)) + TotalInterruptions(Heard(script))
  {
    if script != [] {
      var front, last := script[..|script| - 1], script[|script| - 1];
      var heard, said := HeardBy(last), SaidBy(last);
      AllReportsConcat(Heard(front), heard);
      OwnDonesOfScript(front);
      StepCount(last);
      OwnDoneConcat(StreamOf(front), StepEvents(last));
      TotalConcat(Heard(front), heard);
      AnnouncedDoneConcat(Says(front), said);
      OneAnnouncement(said);
    }
  }

  lemma OneAnnouncement(said: seq<WorkflowEvent>)
    requires |said| <= 1
    ensures AnnouncedDoneCount(said) == if said != [] && said[0].WorkflowDone? then 1 else 0
  {
    assert said != [] ==> said[..0] == [];
  }

  // ---------------------------------------------------------------- what a script announces

  lemma {:induction false} SaysConcat(a: seq<Step>, b: seq<Step>)
    ensures Says(a + b) == Says(a) + Says(b)
    ensures Heard(a + b) == Heard(a) + Heard(b)
  {
    if b == [] {
      assert a + b == a;
    } else {
      var front, last := b[..|b| - 1], b[|b| - 1];
      SaysConcat(a, front);
      SaysOfLonger(a, front, last);
      HeardOfLonger(a, front, last);
      assert b == front + [last];
    }
  }

  lemma SaysOfLonger(a: seq<Step>, front: seq<Step>, last: Step)
    requires Says(a + front) == Says(a) + Says(front)
    ensures Says(a + (front + [last])) == Says(a) + Says(front + [last])
  {
    calc {
      Says(a + (front + [last]));
      { Associates(a, front, [last]); }
      Says((a + front) + [last]);
      { SaysSnoc(a + front, last); }
      (Says(a) + Says(front)) + SaidBy(last);
      { Associates(Says(a), Says(front), SaidBy(last)); }
      Says(a) + (Says(front) + SaidBy(last));
      { SaysSnoc(front, last); }
      Says(a) + Says(front + [last]);
    }
  }

  lemma HeardOfLonger(a: seq<Step>, front: seq<Step>, last: Step)
    requires Heard(a + front) == Heard(a) + Heard(front)
    ensures Heard(a + (front + [last])) == Heard(a) + Heard(front + [last])
  {
    calc {
      Heard(a + (front + [last]));
      { Associates(a, front, [last]); }
      Heard((a + front) + [last]);
      { SaysSnoc(a + front, last); }
      (Heard(a) + Heard(front)) + HeardBy(last);
      { Associates(Heard(a), Heard(front), HeardBy(last)); }
      Heard(a) + (Heard(front) + HeardBy(last));
      { SaysSnoc(front, last); }
      Heard(a) + Heard(front + [last]);
    }
  }

  lemma SaysSnoc(script: seq<Step>, step: Step)
    ensures Says(script + [step]) == Says(script) + SaidBy(step)
    ensures Heard(script + [step]) == Heard(script) + HeardBy(step)
  {
    assert (script + [step])[..|script|] == script;
  }

  lemma {:induction false} SaysAll(events: seq<WorkflowEvent>)
    ensures Says(SayAll(events)) == events && Heard(SayAll(events)) == []
  {
    if events != [] {
      var front := events[..|events| - 1];
      SaysAll(front);
      assert SayAll(events)[..|events| - 1] == SayAll(front);
    }
  }

  lemma OneStep(a: Step)
    ensures Says([a]) == SaidBy(a) && Heard([a]) == HeardBy(a)
  {
    assert [a][..0] == [];
  }

  lemma TwoSteps(a: Step, b: Step)
    ensures Says([a, b]) == SaidBy(a) + SaidBy(b) && Heard([a, b]) == HeardBy(a) + HeardBy(b)
  {
    OneStep(a);
    assert [a, b][..1] == [a];
  }

  lemma ThreeSteps(a: Step, b: Step, c: Step)
    ensures Says([a, b, c]) == SaidBy(a) + SaidBy(b) + SaidBy(c)
    ensures Heard([a, b, c]) == HeardBy(a) + HeardBy(b) + HeardBy(c)
  {
    TwoSteps(a, b);
    assert [a, b, c][..2] == [a, b];
  }

  lemma FourSteps(a: Step, b: Step, c: Step, d: Step)
    ensures Says([a, b, c, d]) == SaidBy(a) + SaidBy(b) + SaidBy(c) + SaidBy(d)
    ensures Heard([a, b, c, d]) == HeardBy(a) + HeardBy(b) + HeardBy(c) + HeardBy(d)
  {
    ThreeSteps(a, b, c);
    assert [a, b, c, d][..3] == [a, b, c];
  }

  /** The reports of a development, stage by stage. */
  function AllOf(reports: seq<seq<Report>>): seq<Report> {
    if reports == [] then [] else AllOf(reports[..|reports| - 1]) + reports[|reports| - 1]
  }

  lemma {:induction false} DevelopmentSays(reports: seq<seq<Report>>, order: nat -> seq<nat>)
    ensures Says(DevelopScript(reports, order)) == [] && Heard(DevelopScript(reports, order)) == AllOf(reports)
  {
    if reports != [] {
      var n := |reports| - 1;
      DevelopmentSays(reports[..n], order);
      OneStep(Hear(reports[n], order(n)));
      SaysConcat(DevelopScript(reports[..n], order), [Hear(reports[n], order(n))]);
    }
  }

  /** What each part of a run announces, and that all it hears are agent runs. */
  ghost predicate Performs(script: seq<Step>, events: seq<WorkflowEvent>) {
    Says(script) == events && AllReports(Heard(script))
  }

  lemma PerformsConcat(a: seq<Step>, x: seq<WorkflowEvent>, b: seq<Step>, y: seq<WorkflowEvent>)
    requires Performs(a, x) && Performs(b, y)
    ensures Performs(a + b, x + y)
  {
    SaysConcat(a, b);
    AllReportsConcat(Heard(a), Heard(b));
  }

  lemma {:induction false} AllOfReports(reports: seq<seq<Report>>)
    requires forall k :: 0 <= k < |reports| ==> AllReports(reports[k])
    ensures AllReports(AllOf(reports))
  {
    if reports != [] {
      AllOfReports(reports[..|reports| - 1]);
      AllReportsConcat(AllOf(reports[..|reports| - 1]), reports[|reports| - 1]);
    }
  }

  lemma {:induction false} WorkersReport(
    plan: Plan, stages: seq<seq<nat>>, k: nat, repairContext: Option<string>, worker: Launch -> Report)
    requires k <= |stages| && HoldTasks(plan.tasks, stages) && forall launch :: IsReport(worker(launch))
    ensures forall m :: 0 <= m < |ReportsBefore(plan, stages, k, repairContext, worker)| ==>
      AllReports(ReportsBefore(plan, stages, k, repairContext, worker)[m])
  {
    if k > 0 {
      WorkersReport(plan, stages, k - 1, repairContext, worker);
      var lines := LinesBefore(plan, stages, k - 1, repairContext, worker);
      var reports := StageReports(stages[k - 1], k - 1, |stages|, repairContext, lines, worker);
      forall p | 0 <= p < |reports|
        ensures IsReport(reports[p])
      {
        assert reports[p] == worker(LaunchOf(k - 1, |stages|, stages[k - 1][p], repairContext, lines));
      }
    }
  }

  lemma DevelopmentPerforms(crew: Crew, plan: Plan, rounds: seq<Round>, r: nat)
    requires AgentsReport(crew) && r < |rounds| && IsRound(crew, plan, rounds, r)
    ensures Performs(DevelopScript(rounds[r].reports, crew.workerOrder(r)), [])
  {
    var context, worker := rounds[r].repairContext, crew.workers(r);
    var stages, ran, slots :| Develops(plan, context, worker, crew.cancelled(r), stages, ran, slots)
      && rounds[r].results == Present(slots) && rounds[r].reports == ReportsBefore(plan, stages, ran, context, worker);
    WorkersReport(plan, stages, ran, context, worker);
    AllOfReports(rounds[r].reports);
    DevelopmentSays(rounds[r].reports, crew.workerOrder(r));
  }

  lemma PlansPerform(a: Report, b: Report, c: Report, e: WorkflowEvent)
    requires IsReport(a) && IsReport(b) && IsReport(c)
    ensures Performs([Say(e), Solo(a), Solo(b), Solo(c)], [e])
  {
    FourSteps(Say(e), Solo(a), Solo(b), Solo(c));
  }

  lemma TaskPerforms(r: Report, e: WorkflowEvent)
    requires IsReport(r)
    ensures Performs([Say(e), Solo(r)], [e])
  {
    TwoSteps(Say(e), Solo(r));
  }

  lemma ClarifyPerforms(crew: Crew)
    requires AgentsReport(crew)
    ensures Performs(PlanningScript(crew), [PhaseTransition(Requirement), PhaseTransition(Planning)])
  {
    TaskPerforms(crew.clarify, PhaseTransition(Requirement));
    PlansPerform(crew.planA, crew.planB, crew.planC, PhaseTransition(Planning));
    PerformsConcat([Say(PhaseTransition(Requirement)), Solo(crew.clarify)], [PhaseTransition(Requirement)],
      [Say(PhaseTransition(Planning)), Solo(crew.planA), Solo(crew.planB), Solo(crew.planC)],
      [PhaseTransition(Planning)]);
  }

  lemma ConfirmPerforms(crew: Crew)
    requires AgentsReport(crew)
    ensures Performs([Say(PhaseTransition(Dispatch)), Solo(crew.dispatch), Say(PhaseTransition(Developing))],
      [PhaseTransition(Dispatch), PhaseTransition(Developing)])
  {
    ThreeSteps(Say(PhaseTransition(Dispatch)), Solo(crew.dispatch), Say(PhaseTransition(Developing)));
  }

  lemma CriticsPerform(e: seq<WorkflowEvent>, a: Report, b: Report, order: seq<nat>)
    requires |e| <= 1 && IsReport(a) && IsReport(b)
    ensures Performs(SayAll(e) + [Hear([a, b], order)], e)
  {
    SaysAll(e);
    OneStep(Hear([a, b], order));
    PerformsConcat(SayAll(e), e, [Hear([a, b], order)], []);
    assert e + [] == e;
  }

  lemma VerdictsPerform(events: seq<WorkflowEvent>)
    ensures Performs(SayAll(events), events)
  {
    SaysAll(events);
  }

  lemma DispatchPerforms(crew: Crew, planned: seq<WorkerTask>)
    requires AgentsReport(crew)
    ensures Performs(DispatchScript(crew, planned),
      [PhaseTransition(PlanReview)] + PlanVerdicts(crew, planned) + [PhaseTransition(Dispatch), PhaseTransition(Developing)])
  {
    var critics := [Say(PhaseTransition(PlanReview)),
                    Hear([crew.planCriticA(planned), crew.planCriticB(planned)], crew.planReviewOrder)];
    var verdicts := PlanVerdicts(crew, planned);
    CriticsPerform([PhaseTransition(PlanReview)],
      crew.planCriticA(planned), crew.planCriticB(planned), crew.planReviewOrder);
    assert SayAll([PhaseTransition(PlanReview)]) + [critics[1]] == critics;
    VerdictsPerform(verdicts);
    ConfirmPerforms(crew);
    PerformsConcat(critics, [PhaseTransition(PlanReview)], SayAll(verdicts), verdicts);
    PerformsConcat(critics + SayAll(verdicts), [PhaseTransition(PlanReview)] + verdicts,
      [Say(PhaseTransition(Dispatch)), Solo(crew.dispatch), Say(PhaseTransition(Developing))],
      [PhaseTransition(Dispatch), PhaseTransition(Developing)]);
  }

  lemma OpeningPerforms(crew: Crew, planned: seq<WorkerTask>)
    requires AgentsReport(crew)
    ensures Performs(OpeningScript(crew, planned), Opening(crew, planned))
  {
    var first := [PhaseTransition(Requirement), PhaseTransition(Planning)];
    var second := [PhaseTransition(PlanReview)] + PlanVerdicts(crew, planned)
      + [PhaseTransition(Dispatch), PhaseTransition(Developing)];
    ClarifyPerforms(crew);
    DispatchPerforms(crew, planned);
    PerformsConcat(PlanningScript(crew), first, DispatchScript(crew, planned), second);
    OpeningInOrder([], PlanningScript(crew), PlanningScript(crew) + DispatchScript(crew, planned), crew, planned);
    assert [] + OpeningScript(crew, planned) == OpeningScript(crew, planned);
    assert first + second == Opening(crew, planned);
  }

  lemma RepairPerforms(crew: Crew, max: nat, earlier: seq<Round>)
    requires AgentsReport(crew)
    ensures Performs(RepairScript(crew, max, earlier), RepairEvents(crew, max, earlier))
  {
    if earlier != [] {
      var s := RepairScript(crew, max, earlier);
      ThreeSteps(s[0], s[1], s[2]);
    }
  }

  lemma DevelopedPerforms(crew: Crew, max: nat, plan: Plan, rounds: seq<Round>, r: nat)
    requires AgentsReport(crew) && r < |rounds| && IsRound(crew, plan, rounds, r)
    ensures Performs(DevelopedScript(crew, max, rounds[..r], rounds[r].reports),
      RepairEvents(crew, max, rounds[..r]) + [PhaseTransition(FinalReview)])
  {
    var repair, events := RepairScript(crew, max, rounds[..r]), RepairEvents(crew, max, rounds[..r]);
    var develop := DevelopScript(rounds[r].reports, crew.workerOrder(r));
    RepairPerforms(crew, max, rounds[..r]);
    DevelopmentPerforms(crew, plan, rounds, r);
    OneStep(Say(PhaseTransition(FinalReview)));
    PerformsConcat(repair, events, develop, []);
    assert events + [] == events;
    PerformsConcat(repair + develop, events, [Say(PhaseTransition(FinalReview))], [PhaseTransition(FinalReview)]);
  }

  lemma ReviewPerforms(crew: Crew, r: nat, round: Round)
    requires AgentsReport(crew)
    ensures Performs(ReviewScript(crew, r, round), Verdicts(crew, FinalReview, round.a, round.b))
  {
    var a, b := crew.finalCriticA(r, round.results), crew.finalCriticB(r, round.results);
    var verdicts := Verdicts(crew, FinalReview, round.a, round.b);
    CriticsPerform([], a, b, crew.finalReviewOrder(r));
    assert SayAll([]) + [Hear([a, b], crew.finalReviewOrder(r))] == [Hear([a, b], crew.finalReviewOrder(r))];
    VerdictsPerform(verdicts);
    PerformsConcat([Hear([a, b], crew.finalReviewOrder(r))], [], SayAll(verdicts), verdicts);
    assert [] + verdicts == verdicts;
  }

  lemma {:induction false} LoopPerforms(crew: Crew, max: nat, plan: Plan, rounds: seq<Round>)
    requires AgentsReport(crew) && forall r: nat :: r < |rounds| ==> IsRound(crew, plan, rounds, r)
    ensures Performs(LoopScript(crew, max, rounds), LoopEvents(crew, max, rounds))
  {
    if rounds != [] {
      var n := |rounds| - 1;
      forall r: nat | r < n
        ensures IsRound(crew, plan, rounds[..n], r)
      {
        assert IsRound(crew, plan, rounds, r) && rounds[..n][..r] == rounds[..r];
      }
      LoopPerforms(crew, max, plan, rounds[..n]);
      DevelopedPerforms(crew, max, plan, rounds, n);
      ReviewPerforms(crew, n, rounds[n]);
      var before, developed := LoopScript(crew, max, rounds[..n]), DevelopedScript(crew, max, rounds[..n], rounds[n].reports);
      var repair := RepairEvents(crew, max, rounds[..n]) + [PhaseTransition(FinalReview)];
      PerformsConcat(before, LoopEvents(crew, max, rounds[..n]), developed, repair);
      PerformsConcat(before + developed, LoopEvents(crew, max, rounds[..n]) + repair,
        ReviewScript(crew, n, rounds[n]), Verdicts(crew, FinalReview, rounds[n].a, rounds[n].b));
    }
  }

  lemma ClosingPerforms(crew: Crew, last: Round, summary: Summary)
    requires AgentsReport(crew)
    ensures Performs(ClosingScript(crew, last, summary), Closing(FinalStatus(crew, last), summary))
  {
    var s := ClosingScript(crew, last, summary);
    ThreeSteps(s[0], s[1], s[2]);
  }

  lemma CompletedPerforms(
    crew: Crew, max: nat, planned: seq<WorkerTask>, plan: Plan, rounds: seq<Round>, summary: Summary)
    requires AgentsReport(crew) && IsLoop(crew, max, plan, rounds)
    ensures Performs(Script(crew, max, planned, rounds, summary), Trace(crew, max, planned, rounds, summary))
  {
    var last := rounds[|rounds| - 1];
    OpeningPerforms(crew, planned);
    LoopPerforms(crew, max, plan, rounds);
    ClosingPerforms(crew, last, summary);
    PerformsConcat(OpeningScript(crew, planned), Opening(crew, planned),
      LoopScript(crew, max, rounds), LoopEvents(crew, max, rounds));
    PerformsConcat(OpeningScript(crew, planned) + LoopScript(crew, max, rounds),
      Opening(crew, planned) + LoopEvents(crew, max, rounds),
      ClosingScript(crew, last, summary), Closing(FinalStatus(crew, last), summary));
  }

  lemma BrokenDevelopmentPerforms(
    crew: Crew, max: nat, plan: Plan, rounds: seq<Round>, reports: seq<seq<Report>>)
    requires AgentsReport(crew) && IsPanicLoop(crew, max, plan, rounds, reports)
    ensures Performs(BrokenDevelopment(crew, max, rounds, reports), RepairEvents(crew, max, rounds))
  {
    var r := |rounds|;
    var context, worker := FeedbackBefore(crew, rounds), crew.workers(r);
    var stages: seq<seq<nat>>, last: nat :| BreaksOff(plan, context, worker, crew.cancelled(r), stages, last)
      && reports == ReportsBefore(plan, stages, last + 1, context, worker);
    WorkersReport(plan, stages, last + 1, context, worker);
    AllOfReports(reports);
    DevelopmentSays(reports, crew.workerOrder(r));
    RepairPerforms(crew, max, rounds);
    var events := RepairEvents(crew, max, rounds);
    PerformsConcat(RepairScript(crew, max, rounds), events, DevelopScript(reports, crew.workerOrder(r)), []);
    assert events + [] == events;
  }

  lemma BrokenPerforms(
    crew: Crew, max: nat, planned: seq<WorkerTask>, plan: Plan, rounds: seq<Round>, reports: seq<seq<Report>>)
    requires AgentsReport(crew) && IsPanicLoop(crew, max, plan, rounds, reports)
    ensures Performs(BrokenScript(crew, max, planned, rounds, reports), BrokenTrace(crew, max, planned, rounds))
  {
    OpeningPerforms(crew, planned);
    LoopPerforms(crew, max, plan, rounds);
    BrokenDevelopmentPerforms(crew, max, plan, rounds, reports);
    PerformsConcat(OpeningScript(crew, planned), Opening(crew, planned),
      LoopScript(crew, max, rounds), LoopEvents(crew, max, rounds));
    PerformsConcat(OpeningScript(crew, planned) + LoopScript(crew, max, rounds),
      Opening(crew, planned) + LoopEvents(crew, max, rounds),
      BrokenDevelopment(crew, max, rounds, reports), RepairEvents(crew, max, rounds));
  }

  /** Everything a run that passes the pre-flight check does, up to its end or to the panic. */
  function RunScript(
    crew: Crew, max: nat, planned: seq<WorkerTask>, rounds: seq<Round>, broken: Option<seq<seq<Report>>>,
    summary: Summary): seq<Step>
    requires broken.None? ==> rounds != []
  {
    match broken
    case None => Script(crew, max, planned, rounds, summary)
    case Some(reports) => BrokenScript(crew, max, planned, rounds, reports)
  }

  /** Of everything on the channel, the orchestrator announces exactly the trace. */
  lemma ScriptPerforms(
    crew: Crew, max: nat, planned: seq<WorkerTask>, plan: Plan, rounds: seq<Round>,
    broken: Option<seq<seq<Report>>>, summary: Summary)
    requires AgentsReport(crew) && AreRounds(crew, max, plan, rounds, broken)
    ensures Performs(RunScript(crew, max, planned, rounds, broken, summary),
      WorkflowTheorems.Announced(crew, max, planned, rounds, broken, summary))
  {
    match broken
    case None => CompletedPerforms(crew, max, planned, plan, rounds, summary);
    case Some(reports) => BrokenPerforms(crew, max, planned, plan, rounds, reports);
  }

  // ---------------------------------------------------------------- the last done event, and the others

  lemma {:induction false} NoneAnnounced(events: seq<WorkflowEvent>)
    requires forall i :: 0 <= i < |events| ==> !events[i].WorkflowDone?
    ensures AnnouncedDoneCount(events) == 0
  {
    if events != [] {
      NoneAnnounced(events[..|events| - 1]);
    }
  }

  /** The terminal event is announced once, unless the run panics. */
  lemma TerminalIsAnnounced(
    crew: Crew, max: nat, planned: seq<WorkerTask>, rounds: seq<Round>, broken: Option<seq<seq<Report>>>,
    summary: Summary)
    requires broken.None? ==> rounds != []
    ensures AnnouncedDoneCount(WorkflowTheorems.Announced(crew, max, planned, rounds, broken, summary))
      == if broken.None? then 1 else 0
  {
    match broken
    case None =>
      var events := Trace(crew, max, planned, rounds, summary);
      WorkflowTheorems.TerminalAnnouncementIsLast(crew, max, planned, rounds, summary);
      NoneAnnounced(events[..|events| - 1]);
    case Some(_) =>
      var events := BrokenTrace(crew, max, planned, rounds);
      WorkflowTheorems.BrokenTraceHasNoEnd(crew, max, planned, rounds);
      forall i: nat | i < |events|
        ensures !events[i].WorkflowDone?
      {
        assert WorkflowTheorems.QuotesVerdicts(events, i);
      }
      NoneAnnounced(events);
  }

  /** The agent run of this report was neither cancelled while it was received nor timed out. */
  predicate Undisturbed(r: Report) {
    r.interruptions == 0
  }

  lemma UndisturbedMeans(run: AgentRun)
    ensures Undisturbed(ReportOf(run)) <==> forall k :: 0 <= k < TriedCount(run) ==> !Interrupted(run.attempts(k))
  {
    NoneInterruptedIff(run, TriedCount(run));
  }

  /**
   * A run that passes the pre-flight check sends one done event under the workflow's id for every attempt
   * of an agent that was cancelled while it was received or timed out. Unless it panics it sends another
   * one, as its last event, with the status that follows from the final verdicts; so there is exactly one
   * iff there was no such attempt.
   */
  lemma DoneEventsOfRun(
    crew: Crew, max: nat, planned: seq<WorkerTask>, plan: Plan, rounds: seq<Round>,
    broken: Option<seq<seq<Report>>>, summary: Summary)
    requires AgentsReport(crew) && AreRounds(crew, max, plan, rounds, broken)
    ensures var script := RunScript(crew, max, planned, rounds, broken, summary);
      && var events := StreamOf(script);
      && OwnDoneCount(events) == TotalInterruptions(Heard(script)) + (if broken.None? then 1 else 0)
      && (broken.None? ==>
            && events != []
            && events[|events| - 1] == Own(WorkflowDone(FinalStatus(crew, rounds[|rounds| - 1]), summary))
            && (OwnDoneCount(events) == 1
                <==> forall k :: 0 <= k < |Heard(script)| ==> Undisturbed(Heard(script)[k])))
  {
    ScriptPerforms(crew, max, planned, plan, rounds, broken, summary);
    TerminalIsAnnounced(crew, max, planned, rounds, broken, summary);
    OwnDonesOfScript(RunScript(crew, max, planned, rounds, broken, summary));
    if broken.None? {
      LastOnChannel(crew, max, planned, rounds, summary);
    }
  }

  lemma LastOnChannel(crew: Crew, max: nat, planned: seq<WorkerTask>, rounds: seq<Round>, summary: Summary)
    requires rounds != []
    ensures var events := StreamOf(Script(crew, max, planned, rounds, summary));
      && events != []
      && events[|events| - 1] == Own(WorkflowDone(FinalStatus(crew, rounds[|rounds| - 1]), summary))
  {
    var script := Script(crew, max, planned, rounds, summary);
    var last := ClosingScript(crew, rounds[|rounds| - 1], summary)[2];
    assert script[|script| - 1] == last;
    StreamSnoc(script[..|script| - 1], last);
    assert script == script[..|script| - 1] + [last];
  }

  // ---------------------------------------------------------------- runs that panic

  /** The announcements on the channel are those of the script. */
  lemma {:induction false} OwnEventsAreSaid(script: seq<Step>, e: WorkflowEvent)
    ensures Own(e) in StreamOf(script) <==> e in Says(script)
  {
    if script != [] {
      var front, last := script[..|script| - 1], script[|script| - 1];
      OwnEventsAreSaid(front, e);
      assert Own(e) in StepEvents(last) <==> e in SaidBy(last) by {
        assert last.Hear? ==> forall k :: 0 <= k < |StepEvents(last)| ==> StepEvents(last)[k].FromAgent?;
      }
    }
  }

  /**
   * Subscribers see the workflow enter the delivery, and see its terminal event, iff no outcome collected
   * in a development is cut inside a character.
   */
  lemma TerminalEventIsSentIff(
    crew: Crew, max: nat, planned: seq<WorkerTask>, plan: Plan, rounds: seq<Round>,
    broken: Option<seq<seq<Report>>>, summary: Summary)
    requires AgentsReport(crew) && AreRounds(crew, max, plan, rounds, broken)
    ensures var events := StreamOf(RunScript(crew, max, planned, rounds, broken, summary));
      && (Own(PhaseTransition(Delivery)) in events <==> WorkflowTheorems.NoOutcomeSplits(rounds, broken))
      && ((exists e: WorkflowEvent :: e.WorkflowDone? && Own(e) in events)
          <==> WorkflowTheorems.NoOutcomeSplits(rounds, broken))
  {
    var script := RunScript(crew, max, planned, rounds, broken, summary);
    ScriptPerforms(crew, max, planned, plan, rounds, broken, summary);
    WorkflowTheorems.DeliversIff(crew, max, planned, plan, rounds, broken, summary);
    forall e: WorkflowEvent
      ensures Own(e) in StreamOf(script) <==> e in Says(script)
    {
      OwnEventsAreSaid(script, e);
    }
    var said := Says(script);
    if i :| 0 <= i < |said| && said[i].WorkflowDone? {
      assert said[i] in said;
    }
  }
}
