// What every run of the workflow guarantees: the order of the phases, the bound on the repairs, and
// the terminal status the final verdicts lead to.
module WorkflowTheorems {
  import opened Text
  import TextLaws
  import opened Staging
  import opened StagingTheorems
  import opened AgentRuns
  import opened Develop
  import opened Workflow
  import opened Candidates

  // ---------------------------------------------------------------- the phases

  /** What a run announces, up to its terminal event or to the panic. */
  function Announced(
    crew: Crew, max: nat, planned: seq<WorkerTask>, rounds: seq<Round>, broken: Option<seq<seq<Report>>>,
    summary: Summary): seq<WorkflowEvent>
    requires broken.None? ==> rounds != []
  {
    match broken
    case None => Trace(crew, max, planned, rounds, summary)
    case Some(_) => BrokenTrace(crew, max, planned, rounds)
  }

  /** A phase entered, or the number of a repair. */
  datatype Milestone = Enter(phase: Phase) | RepairNumber(index: nat)

  function MilestoneOf(e: WorkflowEvent): seq<Milestone> {
    match e
    case PhaseTransition(to) => [Enter(to)]
    case RepairLoop(index, _, _, _) => [RepairNumber(index)]
    case _ => []
  }

  function Milestones(events: seq<WorkflowEvent>): seq<Milestone> {
    if events == [] then []
    else Milestones(events[..|events| - 1]) + MilestoneOf(events[|events| - 1])
  }

  lemma {:induction false} MilestonesConcat(a: seq<WorkflowEvent>, b: seq<WorkflowEvent>)
    ensures Milestones(a + b) == Milestones(a) + Milestones(b)
  {
    if b == [] {
      assert a + b == a;
    } else {
      var front := b[..|b| - 1];
      assert (a + b)[..|a + b| - 1] == a + front;
      MilestonesConcat(a, front);
    }
  }

  lemma MilestonesConcat3(a: seq<WorkflowEvent>, b: seq<WorkflowEvent>, c: seq<WorkflowEvent>)
    ensures Milestones(a + b + c) == Milestones(a) + Milestones(b) + Milestones(c)
  {
    MilestonesConcat(a, b);
    MilestonesConcat(a + b, c);
  }

  lemma OneMilestone(e: WorkflowEvent)
    ensures Milestones([e]) == MilestoneOf(e)
  {
    assert [e][..0] == [];
  }

  lemma TwoMilestones(e: WorkflowEvent, f: WorkflowEvent)
    ensures Milestones([e, f]) == MilestoneOf(e) + MilestoneOf(f)
  {
    OneMilestone(e);
    assert [e, f][..1] == [e];
  }

  lemma ThreeMilestones(e: WorkflowEvent, f: WorkflowEvent, g: WorkflowEvent)
    ensures Milestones([e, f, g]) == MilestoneOf(e) + MilestoneOf(f) + MilestoneOf(g)
  {
    TwoMilestones(e, f);
    assert [e, f, g][..2] == [e, f];
  }

  lemma VerdictsAreNoMilestones(crew: Crew, phase: Phase, a: TaskOutcome, b: TaskOutcome)
    ensures Milestones(Verdicts(crew, phase, a, b)) == []
  {
    var v := Verdicts(crew, phase, a, b);
    TwoMilestones(v[0], v[1]);
  }

  /** The milestones of `k` repairs, each followed by another final review. */
  function RepairMilestones(k: nat): seq<Milestone> {
    if k == 0 then [] else RepairMilestones(k - 1) + [Enter(Repairing), RepairNumber(k), Enter(FinalReview)]
  }

  lemma RoundMilestones(crew: Crew, max: nat, earlier: seq<Round>)
    ensures Milestones(RepairEvents(crew, max, earlier) + [PhaseTransition(FinalReview)])
      == (if earlier == [] then [] else [Enter(Repairing), RepairNumber(|earlier|)]) + [Enter(FinalReview)]
  {
    var review: seq<WorkflowEvent> := [PhaseTransition(FinalReview)];
    OneMilestone(PhaseTransition(FinalReview));
    if earlier == [] {
      assert RepairEvents(crew, max, earlier) + review == review;
    } else {
      RepairMilestone(crew, max, earlier);
      MilestonesConcat(RepairEvents(crew, max, earlier), review);
    }
  }

  /** The rounds: a first final review, then `k` numbered repairs with another final review each. */
  lemma {:induction false} LoopMilestones(crew: Crew, max: nat, rounds: seq<Round>)
    requires rounds != []
    ensures Milestones(LoopEvents(crew, max, rounds)) == [Enter(FinalReview)] + RepairMilestones(|rounds| - 1)
  {
    var n := |rounds| - 1;
    var last := rounds[n];
    VerdictsAreNoMilestones(crew, FinalReview, last.a, last.b);
    RoundMilestones(crew, max, rounds[..n]);
    MilestonesConcat3(LoopEvents(crew, max, rounds[..n]),
      RepairEvents(crew, max, rounds[..n]) + [PhaseTransition(FinalReview)], Verdicts(crew, FinalReview, last.a, last.b));
    if n > 0 {
      LoopMilestones(crew, max, rounds[..n]);
      OneMoreRepair(n);
    }
  }

  lemma OneMoreRepair(n: nat)
    requires n > 0
    ensures [Enter(FinalReview)] + RepairMilestones(n - 1)
        + ([Enter(Repairing), RepairNumber(n)] + [Enter(FinalReview)]) + []
      == [Enter(FinalReview)] + RepairMilestones(n)
  {
  }

  const FIRST_PHASES: seq<Milestone> :=
    [Enter(Requirement), Enter(Planning), Enter(PlanReview), Enter(Dispatch), Enter(Developing)]

  lemma OpeningMilestones(crew: Crew, planned: seq<WorkerTask>)
    ensures Milestones(Opening(crew, planned)) == FIRST_PHASES
  {
    var a, b := crew.planCriticA(planned).outcome, crew.planCriticB(planned).outcome;
    ThreeMilestones(PhaseTransition(Requirement), PhaseTransition(Planning), PhaseTransition(PlanReview));
    VerdictsAreNoMilestones(crew, PlanReview, a, b);
    TwoMilestones(PhaseTransition(Dispatch), PhaseTransition(Developing));
    MilestonesConcat3(
      [PhaseTransition(Requirement), PhaseTransition(Planning), PhaseTransition(PlanReview)],
      Verdicts(crew, PlanReview, a, b),
      [PhaseTransition(Dispatch), PhaseTransition(Developing)]);
  }

  lemma ClosingMilestones(status: WorkflowStatus, summary: Summary)
    ensures Milestones(Closing(status, summary)) == [Enter(Delivery)]
  {
    TwoMilestones(PhaseTransition(Delivery), WorkflowDone(status, summary));
  }

  lemma RepairsStayWithinCap(crew: Crew, max: nat, plan: Plan, rounds: seq<Round>)
    requires IsLoop(crew, max, plan, rounds)
    ensures |rounds| - 1 <= max
  {
    var k := |rounds| - 1;
    if k > 0 {
      assert Repairs(crew, max, k - 1, rounds[k - 1]);
    }
  }

  /** A development that panics: behind `n` reviews it is announced as repair number `n`. */
  function BrokenMilestones(n: nat): seq<Milestone> {
    if n == 0 then []
    else [Enter(FinalReview)] + RepairMilestones(n - 1) + [Enter(Repairing), RepairNumber(n)]
  }

  lemma BrokenLoopMilestones(crew: Crew, max: nat, rounds: seq<Round>)
    ensures Milestones(LoopEvents(crew, max, rounds) + RepairEvents(crew, max, rounds)) == BrokenMilestones(|rounds|)
  {
    MilestonesConcat(LoopEvents(crew, max, rounds), RepairEvents(crew, max, rounds));
    RepairMilestone(crew, max, rounds);
    if rounds != [] {
      LoopMilestones(crew, max, rounds);
    }
  }

  lemma RepairMilestone(crew: Crew, max: nat, rounds: seq<Round>)
    ensures Milestones(RepairEvents(crew, max, rounds))
      == if rounds == [] then [] else [Enter(Repairing), RepairNumber(|rounds|)]
  {
    if rounds != [] {
      var p := RepairEvents(crew, max, rounds);
      TwoMilestones(p[0], p[1]);
    }
  }

  lemma CompletedPhases(
    crew: Crew, max: nat, planned: seq<WorkerTask>, plan: Plan, rounds: seq<Round>, summary: Summary)
    requires IsLoop(crew, max, plan, rounds)
    ensures |rounds| - 1 <= max
    ensures Milestones(Trace(crew, max, planned, rounds, summary))
      == FIRST_PHASES + ([Enter(FinalReview)] + RepairMilestones(|rounds| - 1)) + [Enter(Delivery)]
  {
    var status := FinalStatus(crew, rounds[|rounds| - 1]);
    RepairsStayWithinCap(crew, max, plan, rounds);
    OpeningMilestones(crew, planned);
    LoopMilestones(crew, max, rounds);
    ClosingMilestones(status, summary);
    MilestonesConcat3(Opening(crew, planned), LoopEvents(crew, max, rounds), Closing(status, summary));
  }

  lemma BrokenPhases(
    crew: Crew, max: nat, planned: seq<WorkerTask>, plan: Plan, rounds: seq<Round>, reports: seq<seq<Report>>)
    requires IsPanicLoop(crew, max, plan, rounds, reports)
    ensures |rounds| <= max
    ensures Milestones(BrokenTrace(crew, max, planned, rounds)) == FIRST_PHASES + BrokenMilestones(|rounds|)
  {
    if rounds != [] {
      assert Repairs(crew, max, |rounds| - 1, rounds[|rounds| - 1]);
    }
    BrokenTraceMilestones(crew, max, planned, rounds);
  }

  lemma BrokenTraceMilestones(crew: Crew, max: nat, planned: seq<WorkerTask>, rounds: seq<Round>)
    ensures Milestones(BrokenTrace(crew, max, planned, rounds)) == FIRST_PHASES + BrokenMilestones(|rounds|)
  {
    var loop, repair := LoopEvents(crew, max, rounds), RepairEvents(crew, max, rounds);
    OpeningMilestones(crew, planned);
    BrokenLoopMilestones(crew, max, rounds);
    MilestonesConcat(Opening(crew, planned), loop + repair);
    assert BrokenTrace(crew, max, planned, rounds) == Opening(crew, planned) + (loop + repair);
  }

  /**
   * Every run that passes the pre-flight check enters the phases in this order: the five up to the
   * first development, the final review, then `k` times a repair and another final review, then the
   * delivery. A run that panics stops in the first development or in a repair. The repairs are numbered
   * from 1 on, and there are at most as many as configured.
   */
  lemma PhasesInOrder(
    crew: Crew, max: nat, planned: seq<WorkerTask>, plan: Plan, rounds: seq<Round>,
    broken: Option<seq<seq<Report>>>, summary: Summary)
    requires AreRounds(crew, max, plan, rounds, broken)
    ensures |rounds| <= (if broken.None? then max + 1 else max)
    ensures Milestones(Announced(crew, max, planned, rounds, broken, summary))
      == FIRST_PHASES
         + if broken.None? then [Enter(FinalReview)] + RepairMilestones(|rounds| - 1) + [Enter(Delivery)]
           else BrokenMilestones(|rounds|)
  {
    match broken
    case None =>
      CompletedPhases(crew, max, planned, plan, rounds, summary);
      Associates(FIRST_PHASES, [Enter(FinalReview)] + RepairMilestones(|rounds| - 1), [Enter(Delivery)]);
    case Some(reports) => BrokenPhases(crew, max, planned, plan, rounds, reports);
  }

  // ---------------------------------------------------------------- the verdicts on the trace

  /** A repair event repeats the two verdicts published just before the transition into Phase 7. */
  ghost predicate QuotesVerdicts(events: seq<WorkflowEvent>, i: nat)
    requires i < |events|
  {
    events[i].RepairLoop? ==>
      && i >= 3
      && events[i - 3].ReviewerVerdict? && events[i - 2].ReviewerVerdict?
      && events[i].verdictA == events[i - 3].verdict
      && events[i].verdictB == events[i - 2].verdict
  }

  ghost predicate QuotesAll(events: seq<WorkflowEvent>) {
    forall i: nat :: i < |events| ==> QuotesVerdicts(events, i) && !events[i].WorkflowDone?
  }

  lemma QuotesConcat(a: seq<WorkflowEvent>, b: seq<WorkflowEvent>)
    requires QuotesAll(a) && QuotesAll(b)
    ensures QuotesAll(a + b)
  {
    var c := a + b;
    forall i: nat | i < |c|
      ensures QuotesVerdicts(c, i) && !c[i].WorkflowDone?
    {
      if i < |a| {
        assert QuotesVerdicts(a, i);
      } else {
        assert QuotesVerdicts(b, i - |a|);
      }
    }
  }

  predicate EndsWithVerdicts(events: seq<WorkflowEvent>, a: Verdict, b: Verdict) {
    var n := |events|;
    && n >= 2
    && events[n - 2].ReviewerVerdict? && events[n - 1].ReviewerVerdict?
    && events[n - 2].verdict == a && events[n - 1].verdict == b
  }

  lemma RepairQuotes(events: seq<WorkflowEvent>, n: nat, max: nat, a: Verdict, b: Verdict)
    requires QuotesAll(events) && EndsWithVerdicts(events, a, b)
    ensures QuotesAll(events + [PhaseTransition(Repairing), RepairLoop(n, max, a, b)])
  {
    var c := events + [PhaseTransition(Repairing), RepairLoop(n, max, a, b)];
    forall i: nat | i < |c|
      ensures QuotesVerdicts(c, i) && !c[i].WorkflowDone?
    {
      if i < |events| {
        assert QuotesVerdicts(events, i);
      }
    }
  }

  lemma {:induction false} LoopQuotes(crew: Crew, max: nat, rounds: seq<Round>)
    ensures QuotesAll(LoopEvents(crew, max, rounds))
    ensures rounds != [] ==>
      var last := rounds[|rounds| - 1];
      EndsWithVerdicts(LoopEvents(crew, max, rounds), crew.verdict(last.a), crew.verdict(last.b))
  {
    if rounds != [] {
      var n := |rounds| - 1;
      var before, repair := LoopEvents(crew, max, rounds[..n]), RepairEvents(crew, max, rounds[..n]);
      var tail := [PhaseTransition(FinalReview)] + Verdicts(crew, FinalReview, rounds[n].a, rounds[n].b);
      LoopQuotes(crew, max, rounds[..n]);
      if n > 0 {
        RepairQuotes(before, n, max, crew.verdict(rounds[n - 1].a), crew.verdict(rounds[n - 1].b));
        assert rounds[..n][n - 1] == rounds[n - 1];
      }
      assert QuotesAll(before + repair) by {
        assert n == 0 ==> before + repair == before;
      }
      QuotesConcat(before + repair, tail);
      assert LoopEvents(crew, max, rounds) == (before + repair) + tail;
    }
  }

  /**
   * Of what the orchestrator announces, one event is terminal, the last one. Its status follows from the
   * last two published verdicts, and every repair event quotes the two verdicts that caused it.
   */
  lemma TerminalAnnouncementIsLast(
    crew: Crew, max: nat, planned: seq<WorkerTask>, rounds: seq<Round>, summary: Summary)
    requires rounds != []
    ensures var events := Trace(crew, max, planned, rounds, summary);
      && var n := |events| - 1;
      && n >= 3
      && events[n - 3].ReviewerVerdict? && events[n - 2].ReviewerVerdict?
      && events[n] == WorkflowDone(
           TerminalDoneStatus(events[n - 3].verdict, events[n - 2].verdict, events[n - 3].role, events[n - 2].role),
           summary)
      && forall i: nat :: i < n ==> QuotesVerdicts(events, i) && !events[i].WorkflowDone?
  {
    var last, loop := rounds[|rounds| - 1], LoopEvents(crew, max, rounds);
    var before := Opening(crew, planned) + loop;
    var closing := Closing(FinalStatus(crew, last), summary);
    LoopQuotes(crew, max, rounds);
    QuotesConcat(Opening(crew, planned), loop);
    QuotesConcat(before, [closing[0]]);
    var events := Trace(crew, max, planned, rounds, summary);
    var n := |events| - 1;
    assert events[..n] == before + [closing[0]];
    forall i: nat | i < n
      ensures QuotesVerdicts(events, i) && !events[i].WorkflowDone?
    {
      assert QuotesVerdicts(events[..n], i);
    }
    assert loop[|loop| - 2..] == Verdicts(crew, FinalReview, last.a, last.b);
    assert events[n - 3] == loop[|loop| - 2] && events[n - 2] == loop[|loop| - 1];
  }

  // ---------------------------------------------------------------- runs that panic

  /** No outcome collected in any development of the run is cut inside a character. */
  ghost predicate NoOutcomeSplits(rounds: seq<Round>, broken: Option<seq<seq<Report>>>) {
    && (forall r :: 0 <= r < |rounds| ==> NoStageSplits(rounds[r].reports))
    && (broken.Some? ==> NoStageSplits(broken.value))
  }

  predicate NoDelivery(events: seq<WorkflowEvent>) {
    PhaseTransition(Delivery) !in events
  }

  lemma {:induction false} LoopHasNoDelivery(crew: Crew, max: nat, rounds: seq<Round>)
    ensures NoDelivery(LoopEvents(crew, max, rounds))
  {
    if rounds != [] {
      LoopHasNoDelivery(crew, max, rounds[..|rounds| - 1]);
    }
  }

  lemma BrokenTraceHasNoEnd(crew: Crew, max: nat, planned: seq<WorkerTask>, rounds: seq<Round>)
    ensures QuotesAll(BrokenTrace(crew, max, planned, rounds)) && NoDelivery(BrokenTrace(crew, max, planned, rounds))
  {
    var opening, loop := Opening(crew, planned), LoopEvents(crew, max, rounds);
    LoopQuotes(crew, max, rounds);
    LoopHasNoDelivery(crew, max, rounds);
    QuotesConcat(opening, loop);
    if rounds == [] {
      assert opening + loop + [] == opening + loop;
    } else {
      var last := rounds[|rounds| - 1];
      assert EndsWithVerdicts(opening + loop, crew.verdict(last.a), crew.verdict(last.b));
      RepairQuotes(opening + loop, |rounds|, max, crew.verdict(last.a), crew.verdict(last.b));
    }
  }

  lemma BrokenIff(
    crew: Crew, max: nat, plan: Plan, rounds: seq<Round>, broken: Option<seq<seq<Report>>>)
    requires AreRounds(crew, max, plan, rounds, broken)
    ensures broken.None? <==> NoOutcomeSplits(rounds, broken)
  {
    forall r: nat | r < |rounds|
      ensures NoStageSplits(rounds[r].reports)
    {
      assert IsRound(crew, plan, rounds, r);
      DevelopmentSplitsNone(plan, rounds[r].repairContext, crew.workers(r), crew.cancelled(r),
        rounds[r].results, rounds[r].reports);
    }
    if broken.Some? {
      var n := |rounds|;
      PanicSplitsLast(plan, FeedbackBefore(crew, rounds), crew.workers(n), crew.cancelled(n), broken.value);
    }
  }

  /**
   * A run that passes the pre-flight check reaches the delivery and its terminal event iff no outcome
   * collected in a development is cut inside a character; otherwise it announces neither.
   */
  lemma DeliversIff(
    crew: Crew, max: nat, planned: seq<WorkerTask>, plan: Plan, rounds: seq<Round>,
    broken: Option<seq<seq<Report>>>, summary: Summary)
    requires AreRounds(crew, max, plan, rounds, broken)
    ensures var events := Announced(crew, max, planned, rounds, broken, summary);
      && (PhaseTransition(Delivery) in events <==> NoOutcomeSplits(rounds, broken))
      && ((exists i :: 0 <= i < |events| && events[i].WorkflowDone?) <==> NoOutcomeSplits(rounds, broken))
  {
    var events := Announced(crew, max, planned, rounds, broken, summary);
    BrokenIff(crew, max, plan, rounds, broken);
    if broken.Some? {
      BrokenTraceHasNoEnd(crew, max, planned, rounds);
      assert forall i: nat :: i < |events| ==> QuotesVerdicts(events, i) && !events[i].WorkflowDone?;
    } else {
      assert events[|events| - 1].WorkflowDone? && events[|events| - 2] == PhaseTransition(Delivery);
    }
  }

  // ---------------------------------------------------------------- the verdicts and the status

  predicate Agreed(a: Verdict, b: Verdict) {
    (a.Pass? && b.Pass?) || (a.Unknown? && b.Unknown?)
  }

  /** The loop repairs exactly while nothing stops it, the critics disagree and the cap is not reached. */
  lemma LoopStopsWhen(crew: Crew, max: nat, plan: Plan, rounds: seq<Round>)
    requires IsLoop(crew, max, plan, rounds)
    ensures var k := |rounds| - 1;
      && (forall r: nat :: r < k ==>
            !Stops(crew, r, rounds[r]) && !Agreed(crew.verdict(rounds[r].a), crew.verdict(rounds[r].b)))
      && (|| Stops(crew, k, rounds[k])
          || Agreed(crew.verdict(rounds[k].a), crew.verdict(rounds[k].b))
          || k == max)
  {
    RepairsStayWithinCap(crew, max, plan, rounds);
    forall r: nat | r < |rounds| - 1
      ensures !Stops(crew, r, rounds[r]) && !Agreed(crew.verdict(rounds[r].a), crew.verdict(rounds[r].b))
    {
      assert Repairs(crew, max, r, rounds[r]);
    }
  }

  predicate Flags(v: Verdict) {
    v.Repair? || v.Rewrite?
  }

  predicate MoreSevere(a: Verdict, b: Verdict) {
    (a.Rewrite? && !b.Rewrite?) || (a.Repair? && !Flags(b))
  }

  /**
   * A workflow is reported as done iff neither critic flags it and at least one of them answered. A
   * flagged one names the more severe verdict and its critic, the first critic on a tie.
   */
  lemma StatusFollowsVerdicts(a: Verdict, b: Verdict, roleA: string, roleB: string)
    ensures var status := TerminalDoneStatus(a, b, roleA, roleB);
      && (status.Finished? <==> !Flags(a) && !Flags(b) && !(a.Unknown? && b.Unknown?))
      && (status.BothCriticsUnresponsive? <==> a.Unknown? && b.Unknown?)
      && (Flags(a) || Flags(b) ==>
            status == if MoreSevere(b, a) then RejectedBy(b, roleB) else RejectedBy(a, roleA))
  {
  }

  function VerdictText(v: Verdict): string {
    match v
    case Pass => "PASS"
    case Repair => "REPAIR"
    case Rewrite => "REWRITE"
    case Unknown => "UNKNOWN"
  }

  function FailureText(status: WorkflowStatus): string {
    match status
    case RoleNotConfigured => "role_not_configured"
    case BothCriticsUnresponsive => "reviewer_UNKNOWN_both_critics_unresponsive"
    case RejectedBy(verdict, role) => "reviewer_" + VerdictText(verdict) + "_" + role
    case Finished => ""
  }

  function StatusText(status: WorkflowStatus): string {
    if status.Finished? then "DONE" else "FAILED: " + FailureText(status)
  }

  /** The front end reads the status text: it starts with FAILED iff it is not DONE. */
  lemma StatusTextTellsFailure(status: WorkflowStatus)
    ensures StatusText(status) == "DONE" <==> status.Finished?
    ensures StartsWith(StatusText(status), "FAILED") <==> !status.Finished?
  {
    assert "DONE"[0] == 'D' && "FAILED"[0] == 'F';
    StartsWithFailed("FAILED: ", FailureText(status));
  }

  /** The status of a rejected workflow names the verdict and the critic. */
  lemma StatusTextTells(verdict: Verdict, role: string)
    ensures var s := StatusText(RejectedBy(verdict, role)); ContainsText(s, VerdictText(verdict)) && ContainsText(s, role)
  {
    RejectedText("FAILED: ", "reviewer_", VerdictText(verdict), role);
  }

  lemma RejectedText(failed: string, reviewer: string, verdict: string, role: string)
    ensures var s := failed + (reviewer + verdict + "_" + role); ContainsText(s, verdict) && ContainsText(s, role)
  {
    var s := failed + (reviewer + verdict + "_" + role);
    TextLaws.ContainsMiddle(failed + reviewer, verdict, "_" + role);
    assert failed + reviewer + verdict + ("_" + role) == s;
    TextLaws.ContainsMiddle(failed + reviewer + verdict + "_", role, "");
    assert failed + reviewer + verdict + "_" + role + "" == s;
  }

  /** Verdicts are told apart by their texts. */
  lemma VerdictTextsDiffer(v: Verdict, w: Verdict)
    ensures VerdictText(v) == VerdictText(w) <==> v == w
  {
    assert |VerdictText(Pass)| == 4 && |VerdictText(Repair)| == 6 && |VerdictText(Rewrite)| == 7;
    assert VerdictText(Unknown)[0] == 'U' && VerdictText(Rewrite)[0] == 'R';
  }

  lemma StartsWithFailed(start: string, reason: string)
    requires start == "FAILED: "
    ensures StartsWith(start + reason, "FAILED") && start + reason != "DONE"
  {
    assert start[..6] == "FAILED";
    assert (start + reason)[..6] == start[..6];
  }

  /** The documented rule: repair on any verdict but PASS while the cap is not reached. */
  predicate DocumentedRepair(a: Verdict, b: Verdict, loopCount: nat, maxLoops: nat) {
    !(a.Pass? && b.Pass?) && loopCount < maxLoops
  }

  /** The code follows the documented rule except when neither critic answers below the cap. */
  lemma RepairRuleIsDocumentedIff(a: Verdict, b: Verdict, loopCount: nat, maxLoops: nat)
    ensures ShouldRepairDecision(a, b, loopCount, maxLoops) == DocumentedRepair(a, b, loopCount, maxLoops)
      <==> !(a.Unknown? && b.Unknown? && loopCount < maxLoops)
  {
  }

  /**
   * One critic passing and the other not answering, review after review, uses up all repairs; the
   * run is then reported as done.
   */
  lemma HalfAnsweredReviewsUseUpTheRepairs(crew: Crew, max: nat, plan: Plan, rounds: seq<Round>)
    requires IsLoop(crew, max, plan, rounds)
    requires forall r: nat :: r < |rounds| ==>
      && !Stops(crew, r, rounds[r])
      && {crew.verdict(rounds[r].a), crew.verdict(rounds[r].b)} == {Pass, Unknown}
    ensures |rounds| - 1 == max
    ensures FinalStatus(crew, rounds[|rounds| - 1]).Finished?
  {
    LoopStopsWhen(crew, max, plan, rounds);
    var last := rounds[|rounds| - 1];
    var a, b := crew.verdict(last.a), crew.verdict(last.b);
    assert !Stops(crew, |rounds| - 1, last);
    assert a in {Pass, Unknown} && b in {Pass, Unknown};
    assert Pass in {a, b} && Unknown in {a, b};
  }

  // ---------------------------------------------------------------- the rounds

  ghost predicate AllRounds(crew: Crew, plan: Plan, rounds: seq<Round>) {
    forall r: nat :: r < |rounds| ==> IsRound(crew, plan, rounds, r)
  }

  lemma {:induction false} SameRounds(crew: Crew, plan: Plan, x: seq<Round>, y: seq<Round>, k: nat)
    requires AllRounds(crew, plan, x) && AllRounds(crew, plan, y)
    requires k <= |x| && k <= |y|
    ensures x[..k] == y[..k]
  {
    if k > 0 {
      SameRounds(crew, plan, x, y, k - 1);
      assert IsRound(crew, plan, x, k - 1) && IsRound(crew, plan, y, k - 1);
      DevelopmentIsUnique(plan, x[k - 1].repairContext, crew.workers(k - 1), crew.cancelled(k - 1),
        x[k - 1].results, x[k - 1].reports, y[k - 1].results, y[k - 1].reports);
      assert x[..k] == x[..k - 1] + [x[k - 1]] && y[..k] == y[..k - 1] + [y[k - 1]];
    }
  }

  /** After the rounds of one run, another run on the same answers has no round. */
  lemma NoRoundBehind(
    crew: Crew, max: nat, plan: Plan, x: seq<Round>, p: Option<seq<seq<Report>>>,
    y: seq<Round>, q: Option<seq<seq<Report>>>)
    requires AreRounds(crew, max, plan, x, p) && AreRounds(crew, max, plan, y, q)
    ensures |x| <= |y|
  {
    if |x| > |y| {
      var n := |y|;
      SameRounds(crew, plan, x, y, n);
      assert x[..n] == y by {
        assert y[..n] == y;
      }
      if q.Some? {
        assert IsRound(crew, plan, x, n);
        DevelopmentIsNoPanic(plan, x[n].repairContext, crew.workers(n), crew.cancelled(n),
          x[n].results, x[n].reports, q.value);
      }
    }
  }

  /** What the agents answer determines the rounds and the panic: the contract of the loop admits one run only. */
  lemma LoopIsUnique(
    crew: Crew, max: nat, plan: Plan, x: seq<Round>, p: Option<seq<seq<Report>>>,
    y: seq<Round>, q: Option<seq<seq<Report>>>)
    requires AreRounds(crew, max, plan, x, p) && AreRounds(crew, max, plan, y, q)
    ensures x == y && p == q
  {
    NoRoundBehind(crew, max, plan, x, p, y, q);
    NoRoundBehind(crew, max, plan, y, q, x, p);
    SameRounds(crew, plan, x, y, |x|);
    assert x[..|x|] == x && y[..|y|] == y;
    SameEnding(crew, max, plan, x, p, q);
  }

  lemma SameEnding(
    crew: Crew, max: nat, plan: Plan, rounds: seq<Round>, p: Option<seq<seq<Report>>>, q: Option<seq<seq<Report>>>)
    requires AreRounds(crew, max, plan, rounds, p) && AreRounds(crew, max, plan, rounds, q)
    ensures p == q
  {
    var n := |rounds|;
    if p.Some? && q.Some? {
      PanicIsUnique(plan, FeedbackBefore(crew, rounds), crew.workers(n), crew.cancelled(n), p.value, q.value);
    }
  }

  /** The result of task `i` is what its worker answered, told the feedback of the round before. */
  ghost predicate AnsweredBy(crew: Crew, rounds: seq<Round>, r: nat, i: nat)
    requires r < |rounds| && i < |rounds[r].results|
  {
    exists context: Option<UpstreamContext> ::
      rounds[r].results[i] == crew.workers(r)(Launch(i, FeedbackBefore(crew, rounds[..r]), context)).outcome
  }

  /**
   * In a round without cancellation every task of the plan is developed, whatever its dependencies,
   * and both critics are shown exactly these results.
   */
  lemma EveryRoundCoversThePlan(crew: Crew, plan: Plan, rounds: seq<Round>, r: nat)
    requires r < |rounds| && IsRound(crew, plan, rounds, r)
    requires forall k: nat :: !crew.cancelled(r)(k)
    ensures |rounds[r].results| == |plan.tasks|
    ensures forall i: nat :: i < |plan.tasks| ==> AnsweredBy(crew, rounds, r, i)
  {
    var round, worker, cancelled := rounds[r], crew.workers(r), crew.cancelled(r);
    var stages, ran, slots :|
      Develops(plan, round.repairContext, worker, cancelled, stages, ran, slots) && round.results == Present(slots);
    UncancelledResultsAlign(plan, round.repairContext, worker, cancelled, stages, ran, slots);
    forall i: nat | i < |plan.tasks|
      ensures AnsweredBy(crew, rounds, r, i)
    {
      var k := EveryTaskRunsOrIsFallback(plan.tasks, stages, i);
      var lines := LinesBefore(plan, stages, k, round.repairContext, worker);
      var launch := LaunchOf(k, |stages|, i, round.repairContext, lines);
      assert round.results[i] == worker(launch).outcome;
      assert launch == Launch(i, FeedbackBefore(crew, rounds[..r]), launch.context);
    }
  }

  // ---------------------------------------------------------------- critics that cannot run

  lemma {:induction false} ContainsAt(s: string, sub: string, k: nat)
    requires k + |sub| <= |s| && s[k..k + |sub|] == sub
    ensures ContainsText(s, sub)
  {
    if k > 0 {
      assert s[1..][k - 1..k - 1 + |sub|] == s[k..k + |sub|];
      ContainsAt(s[1..], sub, k - 1);
    } else {
      assert sub <= s;
    }
  }

  lemma AuthErrorAtEight(start: string, rest: string)
    requires start == "FAILED: auth_error (provider="
    ensures ContainsText(start + rest, "auth_error")
  {
    assert start[8..18] == "auth_error";
    assert (start + rest)[8..18] == start[8..18];
    ContainsAt(start + rest, "auth_error", 8);
  }

  /** A critic that gives up on authentication ends the repair loop. */
  lemma RejectedKeysEndTheLoop(candidates: seq<Candidates.Candidate>, last: nat, o: TaskOutcome)
    requires last < |candidates| && Candidates.GivesUpOnAuth(candidates, last, o.status)
    ensures EndsReview(Candidates.ResultOf(candidates, last, o))
  {
    var c := candidates[last];
    var start: string, rest := "FAILED: auth_error (provider=", c.provider + ", secret=" + c.secretName + "): " + o.status;
    AuthErrorAtEight(start, rest);
    assert Candidates.ResultOf(candidates, last, o).status == start + rest;
  }

  lemma NinthOfNone(none: string)
    requires none == "FAILED: no candidates resolved"
    ensures |none| > 8 && none[8] == 'n' && none[0] == 'F'
  {
  }

  lemma NinthOfResolve(resolve: string)
    requires resolve == "FAILED: resolve"
    ensures |resolve| > 8 && resolve[8] == 'r'
  {
  }

  lemma NoCandidatesIsNoEnd(none: string, resolve: string, auth: string)
    requires none == "FAILED: no candidates resolved" && resolve == "FAILED: resolve" && auth == "auth_error"
    ensures none != "ABORTED" && !StartsWith(none, resolve) && !ContainsText(none, auth)
  {
    NinthOfNone(none);
    NinthOfResolve(resolve);
    assert auth[4] == '_' && Lacks(none, '_');
    Candidates.TextLacks(none, auth, 4);
  }

  /**
   * A critic whose role does not resolve ends the loop too, but one whose role resolves to no
   * candidate does not: its empty answer is reviewed like any other.
   */
  lemma OnlyUnresolvedRolesEndTheLoop(roleId: string, roleDisplay: string, error: string)
    ensures EndsReview(Candidates.UnresolvedRole(roleId, roleDisplay, error))
    ensures !EndsReview(Candidates.NoCandidates(roleId, roleDisplay))
  {
    var start: string, status := "FAILED: resolve: ", Candidates.UnresolvedRole(roleId, roleDisplay, error).status;
    assert status[..|start|] == start;
    assert start[..15] == "FAILED: resolve";
    assert status[..15] == start[..15];
    NoCandidatesIsNoEnd(Candidates.NoCandidates(roleId, roleDisplay).status, "FAILED: resolve", "auth_error");
  }
}
