// Which agents run in which phase, and which verdicts are published, over a whole run.
module WorkflowAgents {
  import opened Text
  import opened Staging
  import opened AgentRuns
  import opened Candidates
  import opened Workflow
  import opened WorkflowStream
  import WorkflowTheorems

  // ---------------------------------------------------------------- agents by phase

  /** An agent run and the phase that was announced last before it. */
  type PhasedRun = (Option<Phase>, Report)

  /** The phase announced last, and the agent runs so far. */
  datatype Clock = Clock(phase: Option<Phase>, runs: seq<PhasedRun>)

  function During(phase: Phase, reports: seq<Report>): (runs: seq<PhasedRun>)
    ensures |runs| == |reports|
  {
    RunsAt(Some(phase), reports)
  }

  function RunsAt(phase: Option<Phase>, reports: seq<Report>): (runs: seq<PhasedRun>)
    ensures |runs| == |reports|
    ensures forall k :: 0 <= k < |reports| ==> runs[k] == (phase, reports[k])
  {
    seq(|reports|, k requires 0 <= k < |reports| => (phase, reports[k]))
  }

  function Tick(clock: Clock, step: Step): Clock {
    match step
    case Say(PhaseTransition(to)) => clock.(phase := Some(to))
    case Say(_) => clock
    case Hear(reports, _) => clock.(runs := clock.runs + RunsAt(clock.phase, reports))
  }

  function Through(clock: Clock, script: seq<Step>): Clock {
    if script == [] then clock else Tick(Through(clock, script[..|script| - 1]), script[|script| - 1])
  }

  lemma {:induction false} ThroughConcat(clock: Clock, a: seq<Step>, b: seq<Step>)
    ensures Through(clock, a + b) == Through(Through(clock, a), b)
  {
    if b == [] {
      assert a + b == a;
    } else {
      assert (a + b)[..|a + b| - 1] == a + b[..|b| - 1];
      ThroughConcat(clock, a, b[..|b| - 1]);
    }
  }

  lemma ThroughOne(clock: Clock, step: Step)
    ensures Through(clock, [step]) == Tick(clock, step)
  {
    assert [step][..0] == [];
  }

  /** The script moves the clock to `phase` and adds these runs. */
  ghost predicate Adds(script: seq<Step>, from: Option<Phase>, to: Option<Phase>, runs: seq<PhasedRun>) {
    forall before :: Through(Clock(from, before), script) == Clock(to, before + runs)
  }

  lemma AddsConcat(
    a: seq<Step>, b: seq<Step>, p: Option<Phase>, q: Option<Phase>, r: Option<Phase>,
    x: seq<PhasedRun>, y: seq<PhasedRun>)
    requires Adds(a, p, q, x) && Adds(b, q, r, y)
    ensures Adds(a + b, p, r, x + y)
  {
    forall before
      ensures Through(Clock(p, before), a + b) == Clock(r, before + (x + y))
    {
      ThroughConcat(Clock(p, before), a, b);
      Associates(before, x, y);
    }
  }

  lemma AddsNothing(p: Option<Phase>)
    ensures Adds([], p, p, [])
  {
    forall before: seq<PhasedRun>
      ensures before + [] == before
    {
    }
  }

  lemma TransitionAdds(p: Option<Phase>, to: Phase)
    ensures Adds([Say(PhaseTransition(to))], p, Some(to), [])
  {
    forall before: seq<PhasedRun>
      ensures Through(Clock(p, before), [Say(PhaseTransition(to))]) == Clock(Some(to), before + [])
    {
      ThroughOne(Clock(p, before), Say(PhaseTransition(to)));
      NothingBehind(before);
    }
  }

  lemma AnnouncementAdds(p: Option<Phase>, e: WorkflowEvent)
    requires !e.PhaseTransition?
    ensures Adds([Say(e)], p, p, [])
  {
    forall before: seq<PhasedRun>
      ensures Through(Clock(p, before), [Say(e)]) == Clock(p, before + [])
    {
      ThroughOne(Clock(p, before), Say(e));
      NothingBehind(before);
    }
  }

  lemma AgentsAdd(p: Option<Phase>, reports: seq<Report>, order: seq<nat>)
    ensures Adds([Hear(reports, order)], p, p, RunsAt(p, reports))
  {
    forall before: seq<PhasedRun>
      ensures Through(Clock(p, before), [Hear(reports, order)]) == Clock(p, before + RunsAt(p, reports))
    {
      ThroughOne(Clock(p, before), Hear(reports, order));
    }
  }

  /** A phase begins and these agents run, alone or together. */
  lemma PhaseAdds(p: Option<Phase>, to: Phase, reports: seq<Report>, order: seq<nat>)
    ensures Adds([Say(PhaseTransition(to)), Hear(reports, order)], p, Some(to), During(to, reports))
  {
    TransitionAdds(p, to);
    AgentsAdd(Some(to), reports, order);
    AddsConcat([Say(PhaseTransition(to))], [Hear(reports, order)], p, Some(to), Some(to), [], During(to, reports));
    assert [Say(PhaseTransition(to))] + [Hear(reports, order)] == [Say(PhaseTransition(to)), Hear(reports, order)];
    NothingBehind(During(to, reports));
  }

  lemma OneMoreRun(script: seq<Step>, p: Option<Phase>, to: Phase, reports: seq<Report>, r: Report)
    requires Adds(script, p, Some(to), During(to, reports))
    ensures Adds(script + [Solo(r)], p, Some(to), During(to, reports + [r]))
  {
    AgentsAdd(Some(to), [r], []);
    AddsConcat(script, [Solo(r)], p, Some(to), Some(to), During(to, reports), During(to, [r]));
    RunsConcat(Some(to), reports, [r]);
  }

  lemma TwoVerdictsAdd(p: Option<Phase>, e: WorkflowEvent, f: WorkflowEvent)
    requires e.ReviewerVerdict? && f.ReviewerVerdict?
    ensures Adds(SayAll([e, f]), p, p, [])
  {
    AnnouncementAdds(p, e);
    AnnouncementAdds(p, f);
    AddsConcat([Say(e)], [Say(f)], p, p, p, [], []);
    BothSaid(e, f);
    NothingBehind<PhasedRun>([]);
  }

  lemma BothSaid(e: WorkflowEvent, f: WorkflowEvent)
    ensures [Say(e)] + [Say(f)] == SayAll([e, f])
  {
  }

  lemma NothingBehind<T>(x: seq<T>)
    ensures x + [] == x && [] + x == x
  {
  }

  lemma RunsConcat(p: Option<Phase>, a: seq<Report>, b: seq<Report>)
    ensures RunsAt(p, a) + RunsAt(p, b) == RunsAt(p, a + b)
  {
  }

  /** Agents run and their verdicts are published. */
  lemma ReviewedAdds(
    script: seq<Step>, p: Option<Phase>, q: Option<Phase>, runs: seq<PhasedRun>, e: WorkflowEvent, f: WorkflowEvent)
    requires Adds(script, p, q, runs) && e.ReviewerVerdict? && f.ReviewerVerdict?
    ensures Adds(script + SayAll([e, f]), p, q, runs)
  {
    TwoVerdictsAdd(q, e, f);
    AddsConcat(script, SayAll([e, f]), p, q, q, runs, []);
    NothingBehind(runs);
  }

  lemma OneMoreStage(script: seq<Step>, p: Option<Phase>, before: seq<Report>, stage: seq<Report>, order: seq<nat>)
    requires Adds(script, p, p, RunsAt(p, before))
    ensures Adds(script + [Hear(stage, order)], p, p, RunsAt(p, before + stage))
  {
    AgentsAdd(p, stage, order);
    AddsConcat(script, [Hear(stage, order)], p, p, p, RunsAt(p, before), RunsAt(p, stage));
    RunsConcat(p, before, stage);
  }

  lemma {:induction false} DevelopmentAdds(p: Option<Phase>, reports: seq<seq<Report>>, order: nat -> seq<nat>)
    ensures Adds(DevelopScript(reports, order), p, p, RunsAt(p, AllOf(reports)))
  {
    if reports == [] {
      AddsNothing(p);
      assert RunsAt(p, []) == [];
    } else {
      var n := |reports| - 1;
      DevelopmentAdds(p, reports[..n], order);
      OneMoreStage(DevelopScript(reports[..n], order), p, AllOf(reports[..n]), reports[n], order(n));
    }
  }

  // ---------------------------------------------------------------- the phases of a run

  function PlanningAgents(crew: Crew): seq<PhasedRun> {
    During(Requirement, [crew.clarify]) + During(Planning, [crew.planA, crew.planB, crew.planC])
  }

  function DispatchAgents(crew: Crew, planned: seq<WorkerTask>): seq<PhasedRun> {
    During(PlanReview, [crew.planCriticA(planned), crew.planCriticB(planned)]) + During(Dispatch, [crew.dispatch])
  }

  /** The chief decides on a repair, if there was a round before, and the workers develop. */
  function DevelopingAgents(crew: Crew, earlier: seq<Round>, reports: seq<seq<Report>>): seq<PhasedRun> {
    if earlier == [] then During(Developing, AllOf(reports))
    else
      var n, round := |earlier|, earlier[|earlier| - 1];
      During(Repairing, [crew.repairChief(n, round.a, round.b)]) + During(Repairing, AllOf(reports))
  }

  function RoundAgents(crew: Crew, rounds: seq<Round>): seq<PhasedRun> {
    if rounds == [] then []
    else
      var n, last := |rounds| - 1, rounds[|rounds| - 1];
      RoundAgents(crew, rounds[..n])
      + (DevelopingAgents(crew, rounds[..n], last.reports)
         + During(FinalReview, [crew.finalCriticA(n, last.results), crew.finalCriticB(n, last.results)]))
  }

  function EndAgents(crew: Crew, rounds: seq<Round>, broken: Option<seq<seq<Report>>>): seq<PhasedRun>
    requires broken.None? ==> rounds != []
  {
    match broken
    case None => During(Delivery, [crew.deliveryChief(rounds[|rounds| - 1].results)])
    case Some(reports) => DevelopingAgents(crew, rounds, reports)
  }

  lemma PlanningAdds(crew: Crew)
    ensures Adds(PlanningScript(crew), None, Some(Planning), PlanningAgents(crew))
  {
    var ask := [Say(PhaseTransition(Requirement)), Solo(crew.clarify)];
    var plan := [Say(PhaseTransition(Planning)), Solo(crew.planA)];
    PhaseAdds(None, Requirement, [crew.clarify], []);
    PhaseAdds(Some(Requirement), Planning, [crew.planA], []);
    OneMoreRun(plan, Some(Requirement), Planning, [crew.planA], crew.planB);
    assert [crew.planA] + [crew.planB] == [crew.planA, crew.planB];
    OneMoreRun(plan + [Solo(crew.planB)], Some(Requirement), Planning, [crew.planA, crew.planB], crew.planC);
    assert [crew.planA, crew.planB] + [crew.planC] == [crew.planA, crew.planB, crew.planC];
    var plans := plan + [Solo(crew.planB)] + [Solo(crew.planC)];
    AddsConcat(ask, plans, None, Some(Requirement), Some(Planning),
      During(Requirement, [crew.clarify]), During(Planning, [crew.planA, crew.planB, crew.planC]));
    assert ask + plans == PlanningScript(crew);
  }

  lemma DispatchAdds(crew: Crew, planned: seq<WorkerTask>)
    ensures Adds(DispatchScript(crew, planned), Some(Planning), Some(Developing), DispatchAgents(crew, planned))
  {
    var critics := [crew.planCriticA(planned), crew.planCriticB(planned)];
    var review := [Say(PhaseTransition(PlanReview)), Hear(critics, crew.planReviewOrder)];
    var confirm := [Say(PhaseTransition(Dispatch)), Solo(crew.dispatch)];
    PhaseAdds(Some(Planning), PlanReview, critics, crew.planReviewOrder);
    var verdicts := PlanVerdicts(crew, planned);
    ReviewedAdds(review, Some(Planning), Some(PlanReview), During(PlanReview, critics), verdicts[0], verdicts[1]);
    assert [verdicts[0], verdicts[1]] == verdicts;
    ConfirmAdds(crew);
    AddsConcat(review + SayAll(PlanVerdicts(crew, planned)), confirm + [Say(PhaseTransition(Developing))],
      Some(Planning), Some(PlanReview), Some(Developing), During(PlanReview, critics), During(Dispatch, [crew.dispatch]));
    assert confirm + [Say(PhaseTransition(Developing))]
      == [Say(PhaseTransition(Dispatch)), Solo(crew.dispatch), Say(PhaseTransition(Developing))];
  }

  lemma ConfirmAdds(crew: Crew)
    ensures Adds([Say(PhaseTransition(Dispatch)), Solo(crew.dispatch)] + [Say(PhaseTransition(Developing))],
      Some(PlanReview), Some(Developing), During(Dispatch, [crew.dispatch]))
  {
    PhaseAdds(Some(PlanReview), Dispatch, [crew.dispatch], []);
    TransitionAdds(Some(Dispatch), Developing);
    AddsConcat([Say(PhaseTransition(Dispatch)), Solo(crew.dispatch)], [Say(PhaseTransition(Developing))],
      Some(PlanReview), Some(Dispatch), Some(Developing), During(Dispatch, [crew.dispatch]), []);
    NothingBehind(During(Dispatch, [crew.dispatch]));
  }

  lemma OpeningAdds(crew: Crew, planned: seq<WorkerTask>)
    ensures Adds(OpeningScript(crew, planned), None, Some(Developing),
      PlanningAgents(crew) + DispatchAgents(crew, planned))
  {
    PlanningAdds(crew);
    DispatchAdds(crew, planned);
    AddsConcat(PlanningScript(crew), DispatchScript(crew, planned), None, Some(Planning), Some(Developing),
      PlanningAgents(crew), DispatchAgents(crew, planned));
    OpeningInOrder([], PlanningScript(crew), PlanningScript(crew) + DispatchScript(crew, planned), crew, planned);
    NothingBehind(OpeningScript(crew, planned));
  }

  /** The phase a development behind `earlier` runs in. */
  function PhaseOfDevelopment(earlier: seq<Round>): Phase {
    if earlier == [] then Developing else Repairing
  }

  /** The phase announced last before a development behind `earlier`. */
  function PhaseBefore(earlier: seq<Round>): Phase {
    if earlier == [] then Developing else FinalReview
  }

  lemma BrokenAdds(crew: Crew, max: nat, earlier: seq<Round>, reports: seq<seq<Report>>)
    ensures Adds(BrokenDevelopment(crew, max, earlier, reports),
      Some(PhaseBefore(earlier)), Some(PhaseOfDevelopment(earlier)), DevelopingAgents(crew, earlier, reports))
  {
    var order := crew.workerOrder(|earlier|);
    var develop := DevelopScript(reports, order);
    DevelopmentAdds(Some(PhaseOfDevelopment(earlier)), reports, order);
    if earlier == [] {
      NothingBehind(develop);
    } else {
      var n, round := |earlier|, earlier[|earlier| - 1];
      RepairAdds(crew, max, n, round);
      AddsConcat(RepairScript(crew, max, earlier), develop, Some(FinalReview), Some(Repairing), Some(Repairing),
        During(Repairing, [crew.repairChief(n, round.a, round.b)]), During(Repairing, AllOf(reports)));
    }
  }

  lemma RepairAdds(crew: Crew, max: nat, n: nat, round: Round)
    ensures Adds(
      [Say(PhaseTransition(Repairing)), Solo(crew.repairChief(n, round.a, round.b)),
       Say(RepairLoop(n, max, crew.verdict(round.a), crew.verdict(round.b)))],
      Some(FinalReview), Some(Repairing), During(Repairing, [crew.repairChief(n, round.a, round.b)]))
  {
    var chief, e := crew.repairChief(n, round.a, round.b), RepairLoop(n, max, crew.verdict(round.a), crew.verdict(round.b));
    PhaseAdds(Some(FinalReview), Repairing, [chief], []);
    AnnouncementAdds(Some(Repairing), e);
    AddsConcat([Say(PhaseTransition(Repairing)), Solo(chief)], [Say(e)],
      Some(FinalReview), Some(Repairing), Some(Repairing), During(Repairing, [chief]), []);
    NothingBehind(During(Repairing, [chief]));
    assert [Say(PhaseTransition(Repairing)), Solo(chief)] + [Say(e)]
      == [Say(PhaseTransition(Repairing)), Solo(chief), Say(e)];
  }

  lemma ReviewAdds(crew: Crew, r: nat, round: Round)
    ensures Adds(ReviewScript(crew, r, round), Some(FinalReview), Some(FinalReview),
      During(FinalReview, [crew.finalCriticA(r, round.results), crew.finalCriticB(r, round.results)]))
  {
    var critics := [crew.finalCriticA(r, round.results), crew.finalCriticB(r, round.results)];
    AgentsAdd(Some(FinalReview), critics, crew.finalReviewOrder(r));
    ReviewedAdds([Hear(critics, crew.finalReviewOrder(r))], Some(FinalReview), Some(FinalReview),
      During(FinalReview, critics), ReviewerVerdict(FinalReview, round.a.roleId, crew.verdict(round.a)),
      ReviewerVerdict(FinalReview, round.b.roleId, crew.verdict(round.b)));
  }

  /** One more round: a development, the transition and the review. */
  lemma RoundAdds(crew: Crew, max: nat, earlier: seq<Round>, last: Round)
    ensures Adds(DevelopedScript(crew, max, earlier, last.reports) + ReviewScript(crew, |earlier|, last),
      Some(PhaseBefore(earlier)), Some(FinalReview),
      DevelopingAgents(crew, earlier, last.reports)
      + During(FinalReview, [crew.finalCriticA(|earlier|, last.results), crew.finalCriticB(|earlier|, last.results)]))
  {
    BrokenAdds(crew, max, earlier, last.reports);
    ReviewAdds(crew, |earlier|, last);
    DevelopedThenReviewed(BrokenDevelopment(crew, max, earlier, last.reports), ReviewScript(crew, |earlier|, last),
      Some(PhaseBefore(earlier)), Some(PhaseOfDevelopment(earlier)), DevelopingAgents(crew, earlier, last.reports),
      During(FinalReview, [crew.finalCriticA(|earlier|, last.results), crew.finalCriticB(|earlier|, last.results)]));
  }

  lemma DevelopedThenReviewed(
    develop: seq<Step>, review: seq<Step>, p: Option<Phase>, q: Option<Phase>, x: seq<PhasedRun>, y: seq<PhasedRun>)
    requires Adds(develop, p, q, x) && Adds(review, Some(FinalReview), Some(FinalReview), y)
    ensures Adds(develop + [Say(PhaseTransition(FinalReview))] + review, p, Some(FinalReview), x + y)
  {
    TransitionAdds(q, FinalReview);
    AddsConcat(develop, [Say(PhaseTransition(FinalReview))], p, q, Some(FinalReview), x, []);
    NothingBehind(x);
    AddsConcat(develop + [Say(PhaseTransition(FinalReview))], review, p, Some(FinalReview), Some(FinalReview), x, y);
  }

  lemma {:induction false} LoopAdds(crew: Crew, max: nat, rounds: seq<Round>)
    ensures Adds(LoopScript(crew, max, rounds), Some(Developing), Some(PhaseBefore(rounds)), RoundAgents(crew, rounds))
  {
    if rounds == [] {
      AddsNothing(Some(Developing));
    } else {
      var n, last := |rounds| - 1, rounds[|rounds| - 1];
      LoopAdds(crew, max, rounds[..n]);
      RoundAdds(crew, max, rounds[..n], last);
      AddsConcat(LoopScript(crew, max, rounds[..n]),
        DevelopedScript(crew, max, rounds[..n], last.reports) + ReviewScript(crew, n, last),
        Some(Developing), Some(PhaseBefore(rounds[..n])), Some(FinalReview), RoundAgents(crew, rounds[..n]),
        DevelopingAgents(crew, rounds[..n], last.reports)
        + During(FinalReview, [crew.finalCriticA(n, last.results), crew.finalCriticB(n, last.results)]));
      Associates(LoopScript(crew, max, rounds[..n]), DevelopedScript(crew, max, rounds[..n], last.reports),
        ReviewScript(crew, n, last));
    }
  }

  lemma ClosingAdds(crew: Crew, last: Round, summary: Summary)
    ensures Adds(ClosingScript(crew, last, summary), Some(FinalReview), Some(Delivery),
      During(Delivery, [crew.deliveryChief(last.results)]))
  {
    var chief, e := crew.deliveryChief(last.results), WorkflowDone(FinalStatus(crew, last), summary);
    PhaseAdds(Some(FinalReview), Delivery, [chief], []);
    AnnouncementAdds(Some(Delivery), e);
    AddsConcat([Say(PhaseTransition(Delivery)), Solo(chief)], [Say(e)],
      Some(FinalReview), Some(Delivery), Some(Delivery), During(Delivery, [chief]), []);
    NothingBehind(During(Delivery, [chief]));
    assert [Say(PhaseTransition(Delivery)), Solo(chief)] + [Say(e)] == ClosingScript(crew, last, summary);
  }

  lemma EndAdds(
    crew: Crew, max: nat, planned: seq<WorkerTask>, rounds: seq<Round>, broken: Option<seq<seq<Report>>>,
    summary: Summary) returns (end: seq<Step>, to: Phase)
    requires broken.None? ==> rounds != []
    ensures RunScript(crew, max, planned, rounds, broken, summary)
      == (OpeningScript(crew, planned) + LoopScript(crew, max, rounds)) + end
    ensures Adds(end, Some(PhaseBefore(rounds)), Some(to), EndAgents(crew, rounds, broken))
  {
    match broken
    case None =>
      end, to := ClosingScript(crew, rounds[|rounds| - 1], summary), Delivery;
      ClosingAdds(crew, rounds[|rounds| - 1], summary);
    case Some(reports) =>
      end, to := BrokenDevelopment(crew, max, rounds, reports), PhaseOfDevelopment(rounds);
      BrokenAdds(crew, max, rounds, reports);
  }

  /**
   * The agents of a run, each in its phase: the chief on the requirement and three times on the plan, both
   * critics on the plan, the chief on the dispatch; then, round by round, the chief on a repair, the
   * workers stage by stage and both critics; at last the chief on the delivery, unless a development
   * panics, which is then the last one.
   */
  lemma AgentsByPhase(
    crew: Crew, max: nat, planned: seq<WorkerTask>, rounds: seq<Round>, broken: Option<seq<seq<Report>>>,
    summary: Summary)
    requires broken.None? ==> rounds != []
    ensures Through(Clock(None, []), RunScript(crew, max, planned, rounds, broken, summary)).runs
      == PlanningAgents(crew) + DispatchAgents(crew, planned) + RoundAgents(crew, rounds)
         + EndAgents(crew, rounds, broken)
  {
    var opening, loop := OpeningScript(crew, planned), LoopScript(crew, max, rounds);
    var agents := PlanningAgents(crew) + DispatchAgents(crew, planned);
    var end, to := EndAdds(crew, max, planned, rounds, broken, summary);
    OpeningAdds(crew, planned);
    LoopAdds(crew, max, rounds);
    AddsConcat(opening, loop, None, Some(Developing), Some(PhaseBefore(rounds)), agents, RoundAgents(crew, rounds));
    AddsConcat(opening + loop, end, None, Some(PhaseBefore(rounds)), Some(to),
      agents + RoundAgents(crew, rounds), EndAgents(crew, rounds, broken));
    assert [] + (agents + RoundAgents(crew, rounds) + EndAgents(crew, rounds, broken))
      == agents + RoundAgents(crew, rounds) + EndAgents(crew, rounds, broken);
  }

  // ---------------------------------------------------------------- the published verdicts

  function Published(events: seq<WorkflowEvent>): seq<WorkflowEvent> {
    if events == [] then []
    else Published(events[..|events| - 1]) + if events[|events| - 1].ReviewerVerdict? then [events[|events| - 1]] else []
  }

  lemma {:induction false} PublishedConcat(a: seq<WorkflowEvent>, b: seq<WorkflowEvent>)
    ensures Published(a + b) == Published(a) + Published(b)
  {
    if b == [] {
      assert a + b == a;
    } else {
      var front, last := b[..|b| - 1], b[|b| - 1];
      PublishedConcat(a, front);
      assert b == front + [last] && a + b == (a + front) + [last];
      PublishedSnoc(a + front, last);
      PublishedSnoc(front, last);
      Associates(Published(a), Published(front), if last.ReviewerVerdict? then [last] else []);
    }
  }

  lemma PublishedSnoc(events: seq<WorkflowEvent>, e: WorkflowEvent)
    ensures Published(events + [e]) == Published(events) + if e.ReviewerVerdict? then [e] else []
  {
    assert (events + [e])[..|events|] == events;
  }

  lemma {:induction false} NonePublished(events: seq<WorkflowEvent>)
    requires forall k :: 0 <= k < |events| ==> !events[k].ReviewerVerdict?
    ensures Published(events) == []
  {
    if events != [] {
      NonePublished(events[..|events| - 1]);
    }
  }

  lemma {:induction false} AllPublished(events: seq<WorkflowEvent>)
    requires forall k :: 0 <= k < |events| ==> events[k].ReviewerVerdict?
    ensures Published(events) == events
  {
    if events != [] {
      AllPublished(events[..|events| - 1]);
    }
  }

  /** Both verdicts of a review, each under its critic's role. */
  function BothVerdicts(crew: Crew, phase: Phase, a: TaskOutcome, b: TaskOutcome): seq<WorkflowEvent> {
    [ReviewerVerdict(phase, a.roleId, crew.verdict(a)), ReviewerVerdict(phase, b.roleId, crew.verdict(b))]
  }

  function RoundVerdicts(crew: Crew, rounds: seq<Round>): seq<WorkflowEvent> {
    if rounds == [] then []
    else
      var last := rounds[|rounds| - 1];
      RoundVerdicts(crew, rounds[..|rounds| - 1]) + BothVerdicts(crew, FinalReview, last.a, last.b)
  }

  lemma {:induction false} LoopPublishes(crew: Crew, max: nat, rounds: seq<Round>)
    ensures Published(LoopEvents(crew, max, rounds)) == RoundVerdicts(crew, rounds)
  {
    if rounds != [] {
      var n, last := |rounds| - 1, rounds[|rounds| - 1];
      var before, repair := LoopEvents(crew, max, rounds[..n]), RepairEvents(crew, max, rounds[..n]) + [PhaseTransition(FinalReview)];
      LoopPublishes(crew, max, rounds[..n]);
      NonePublished(repair);
      AllPublished(Verdicts(crew, FinalReview, last.a, last.b));
      PublishedConcat(before, repair);
      PublishedConcat(before + repair, Verdicts(crew, FinalReview, last.a, last.b));
      NothingBehind(Published(before));
    }
  }

  lemma OpeningPublishes(crew: Crew, planned: seq<WorkerTask>)
    ensures Published(Opening(crew, planned))
      == BothVerdicts(crew, PlanReview, crew.planCriticA(planned).outcome, crew.planCriticB(planned).outcome)
  {
    var phases := [PhaseTransition(Requirement), PhaseTransition(Planning), PhaseTransition(PlanReview)];
    var verdicts := PlanVerdicts(crew, planned);
    NonePublished(phases);
    AllPublished(verdicts);
    NonePublished([PhaseTransition(Dispatch), PhaseTransition(Developing)]);
    PublishedConcat(phases, verdicts);
    PublishedConcat(phases + verdicts, [PhaseTransition(Dispatch), PhaseTransition(Developing)]);
    assert [] + verdicts + [] == verdicts;
  }

  /** Every repair event names the cap. */
  lemma {:induction false} RepairsNameTheCap(crew: Crew, max: nat, rounds: seq<Round>)
    ensures forall k :: 0 <= k < |LoopEvents(crew, max, rounds)| && LoopEvents(crew, max, rounds)[k].RepairLoop? ==>
      LoopEvents(crew, max, rounds)[k].maxLoops == max
    ensures forall e :: e in RepairEvents(crew, max, rounds) && e.RepairLoop? ==> e.maxLoops == max
  {
    if rounds != [] {
      RepairsNameTheCap(crew, max, rounds[..|rounds| - 1]);
    }
  }

  /** A run publishes the verdicts on the plan and those of every final review, in order, and no others. */
  lemma VerdictsArePublished(
    crew: Crew, max: nat, planned: seq<WorkerTask>, rounds: seq<Round>, broken: Option<seq<seq<Report>>>,
    summary: Summary)
    requires broken.None? ==> rounds != []
    ensures Published(WorkflowTheorems.Announced(crew, max, planned, rounds, broken, summary))
      == BothVerdicts(crew, PlanReview, crew.planCriticA(planned).outcome, crew.planCriticB(planned).outcome)
         + RoundVerdicts(crew, rounds)
  {
    var opening, loop := Opening(crew, planned), LoopEvents(crew, max, rounds);
    var end := if broken.None? then Closing(FinalStatus(crew, rounds[|rounds| - 1]), summary)
               else RepairEvents(crew, max, rounds);
    OpeningPublishes(crew, planned);
    LoopPublishes(crew, max, rounds);
    NonePublished(end);
    PublishedConcat(opening, loop);
    PublishedConcat(opening + loop, end);
    NothingBehind(Published(opening) + Published(loop));
  }
}
