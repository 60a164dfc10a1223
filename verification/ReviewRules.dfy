// When the repair loop goes on, said of the critics' own runs, and what the workers of a repair are told.
module ReviewRules {
  import opened Text
  import opened TextLaws
  import opened Staging
  import AgentLoop
  import opened AgentRuns
  import opened Candidates
  import opened FallbackLaws
  import opened PlanMerge
  import opened PlanIds
  import opened Develop
  import opened Workflow
  import opened WorkflowTheorems

  // ---------------------------------------------------------------- critics that end the review

  /** The agent is cancelled, by the workflow or by itself. */
  predicate EndsAborted(a: Attempt) {
    var received := ReceivedBy(a);
    if Interrupted(a) then a.race.CancelledAfter?
    else EndsDone(received) && received[|received| - 1].status == AgentLoop.StatusAborted
  }

  /** The agent answers: its own run ends well. */
  predicate Answers(a: Attempt) {
    var received := ReceivedBy(a);
    !Interrupted(a) && EndsDone(received) && received[|received| - 1].status == AgentLoop.StatusDone
  }

  /** The last attempt made. */
  function LastAttempt(run: AgentRun): Attempt
    requires IsTried(run)
  {
    run.attempts(LastTried(run.resolution.list, Outcomes(run), 0))
  }

  /** The last attempt failed to authenticate, and no candidate behind it has another secret. */
  ghost predicate GaveUp(run: AgentRun)
    requires IsTried(run)
  {
    && NamesAuthFailure(StatusOf(LastAttempt(run)))
    && !AnotherSecretLeft(run.resolution.list, LastTried(run.resolution.list, Outcomes(run), 0))
  }

  ghost predicate QuotesAuthError(s: string) {
    exists k: nat :: StandsAt(s, "auth_error", k)
  }

  /** The critic's run leaves nothing to repair on. */
  ghost predicate RefusesReview(run: AgentRun) {
    || run.resolution.Unresolved?
    || (IsTried(run) && (EndsAborted(LastAttempt(run)) || GaveUp(run) || QuotesAuthError(StatusOf(LastAttempt(run)))))
  }

  lemma AbortedIff(a: Attempt)
    ensures StatusOf(a) == "ABORTED" <==> EndsAborted(a)
  {
    assert TIMEOUT_STATUS[0] == 'T' && "UNKNOWN"[0] == 'U' && "DONE"[0] == 'D' && "FAILED: "[0] == 'F';
    assert |"ABORTED_REPEAT"| == 14 && |"ABORTED"| == 7;
    if !Interrupted(a) && EndsDone(ReceivedBy(a)) {
      StatusStarts(ReceivedBy(a)[|ReceivedBy(a)| - 1].status);
    }
  }

  lemma StatusStarts(status: AgentLoop.Status)
    ensures status.StatusFailed? ==> AgentRuns.StatusText(status)[0] == 'F'
  {
  }

  lemma NoAttemptFailsToResolve(a: Attempt)
    ensures !StartsWith(StatusOf(a), "FAILED: resolve")
  {
    var s, resolve: string := StatusOf(a), "FAILED: resolve";
    assert resolve[8] == 'r' && resolve[0] == 'F';
    AttemptStatuses(a);
    if status :| s == AgentRuns.StatusText(status) {
      if status.StatusFailed? {
        ErrorTextStarts(status.error);
        assert s == "FAILED: " + ErrorText(status.error) && s[8] == ErrorText(status.error)[0];
      }
    }
  }

  lemma AuthErrorEndsReview(c: Candidate, o: TaskOutcome)
    ensures EndsReview(AuthError(c, o))
  {
    var start: string := "FAILED: auth_error (provider=";
    var rest := c.provider + ", secret=" + c.secretName + "): " + o.status;
    AuthErrorAtEight(start, rest);
    assert AuthError(c, o).status == start + rest;
  }

  /**
   * The outcome of a critic ends the review iff its role does not resolve, its last attempt was
   * cancelled, it gave up on authentication, or its status quotes such an error.
   */
  lemma EndsReviewIff(run: AgentRun)
    ensures EndsReview(OutcomeOf(run)) <==> RefusesReview(run)
  {
    match run.resolution
    case Unresolved(error) => OnlyUnresolvedRolesEndTheLoop(run.roleId, run.roleDisplay, error);
    case Candidates(list) =>
      if list == [] {
        OnlyUnresolvedRolesEndTheLoop(run.roleId, run.roleDisplay, "");
      } else {
        TriedEndsReviewIff(run);
      }
  }

  lemma TriedEndsReviewIff(run: AgentRun)
    requires IsTried(run)
    ensures EndsReview(OutcomeOf(run)) <==> RefusesReview(run)
  {
    var last := OutcomeIsLastResult(run);
    var a, o := run.attempts(last), OutcomeAt(run, last);
    AuthFailureIff(StatusOf(a));
    AuthErrorEndsReview(run.resolution.list[last], o);
    AbortedIff(a);
    NoAttemptFailsToResolve(a);
    ContainsIff(StatusOf(a), "auth_error");
  }

  /** A critic that answers never does. */
  lemma AnsweringIsNoRefusal(run: AgentRun)
    requires IsTried(run) && Answers(LastAttempt(run))
    ensures !RefusesReview(run) && !EndsReview(OutcomeOf(run))
  {
    DoneIsNoAuthFailure();
    EndsReviewIff(run);
  }

  lemma DoneIsNoAuthFailure()
    ensures !NamesAuthFailure("DONE") && !QuotesAuthError("DONE")
  {
    var s: string := "DONE";
    assert Lacks(s, '4') && Lacks(s, 'y') && Lacks(s, '_') && Lacks(s, 'i') && Lacks(s, 'P');
    NoCodeNoAuth(s);
    AuthFailureIff(s);
    assert |s| == 4 && |"auth_error"| == 10;
  }

  // ---------------------------------------------------------------- when the loop goes on

  /** The critics' runs of each review. */
  ghost predicate AreCritics(crew: Crew, rounds: seq<Round>, runsA: nat -> AgentRun, runsB: nat -> AgentRun) {
    forall r: nat :: r < |rounds| ==>
      && crew.finalCriticA(r, rounds[r].results) == ReportOf(runsA(r))
      && crew.finalCriticB(r, rounds[r].results) == ReportOf(runsB(r))
  }

  /** Review `r` is the last one. */
  ghost predicate IsLastReview(crew: Crew, max: nat, r: nat, round: Round, a: AgentRun, b: AgentRun) {
    || crew.cancelledAfterReview(r) || RefusesReview(a) || RefusesReview(b)
    || Agreed(crew.verdict(round.a), crew.verdict(round.b))
    || r >= max
  }

  lemma LastReviewIff(
    crew: Crew, max: nat, plan: Plan, rounds: seq<Round>, r: nat, a: AgentRun, b: AgentRun)
    requires r < |rounds| && IsRound(crew, plan, rounds, r)
    requires crew.finalCriticA(r, rounds[r].results) == ReportOf(a)
    requires crew.finalCriticB(r, rounds[r].results) == ReportOf(b)
    ensures IsLastReview(crew, max, r, rounds[r], a, b) <==> !Repairs(crew, max, r, rounds[r])
  {
    EndsReviewIff(a);
    EndsReviewIff(b);
  }

  /**
   * A review is followed by another development, whole or broken off, iff the run is not cancelled,
   * neither critic refuses it, the verdicts do not agree, and the cap is not reached.
   */
  lemma LoopStopsIff(
    crew: Crew, max: nat, plan: Plan, rounds: seq<Round>, broken: Option<seq<seq<Report>>>,
    runsA: nat -> AgentRun, runsB: nat -> AgentRun, r: nat)
    requires AreRounds(crew, max, plan, rounds, broken) && AreCritics(crew, rounds, runsA, runsB) && r < |rounds|
    ensures r == |rounds| - 1 && broken.None? <==> IsLastReview(crew, max, r, rounds[r], runsA(r), runsB(r))
  {
    assert IsRound(crew, plan, rounds, r);
    LastReviewIff(crew, max, plan, rounds, r, runsA(r), runsB(r));
    if r < |rounds| - 1 || broken.Some? {
      assert Repairs(crew, max, r, rounds[r]);
    }
  }

  /** For one: critics that both answer, without agreeing, get another round below the cap. */
  lemma AnsweredReviewIsRepaired(
    crew: Crew, max: nat, plan: Plan, rounds: seq<Round>, broken: Option<seq<seq<Report>>>,
    runsA: nat -> AgentRun, runsB: nat -> AgentRun, r: nat)
    requires AreRounds(crew, max, plan, rounds, broken) && AreCritics(crew, rounds, runsA, runsB) && r < |rounds|
    requires IsTried(runsA(r)) && Answers(LastAttempt(runsA(r))) && IsTried(runsB(r)) && Answers(LastAttempt(runsB(r)))
    requires !crew.cancelledAfterReview(r) && r < max
    requires !Agreed(crew.verdict(rounds[r].a), crew.verdict(rounds[r].b))
    ensures r < |rounds| - 1 || broken.Some?
  {
    AnsweringIsNoRefusal(runsA(r));
    AnsweringIsNoRefusal(runsB(r));
    LoopStopsIff(crew, max, plan, rounds, broken, runsA, runsB, r);
  }

  // ---------------------------------------------------------------- what a repair is told

  /** `excerpt` is the start of `s`, all of it if it has no more than `n` characters. */
  predicate IsStart(s: string, n: nat, excerpt: string) {
    excerpt <= s && |excerpt| == if |s| <= n then |s| else n
  }

  /** The critic's issues, or the start of its text if it lists none. */
  predicate TellsIssues(crew: Crew, o: TaskOutcome, issues: Issues) {
    match issues
    case IssueList(list) => list == crew.issues(o) && list != []
    case Excerpt(text) => crew.issues(o) == [] && IsStart(o.text, 500, text)
  }

  /** The feedback of review `r` is each critic's own verdict and issues, and the chief's decision on both. */
  lemma FeedbackTellsBoth(crew: Crew, plan: Plan, rounds: seq<Round>, r: nat)
    requires r < |rounds| && IsRound(crew, plan, rounds, r)
    ensures var a, b := crew.finalCriticA(r, rounds[r].results).outcome, crew.finalCriticB(r, rounds[r].results).outcome;
      && var f := FeedbackFor(crew, r + 1, rounds[r]);
      && f.criticA == a.roleDisplay && f.verdictA == crew.verdict(a) && TellsIssues(crew, a, f.issuesA)
      && f.criticB == b.roleDisplay && f.verdictB == crew.verdict(b) && TellsIssues(crew, b, f.issuesB)
      && IsStart(crew.repairChief(r + 1, a, b).outcome.text, 200, f.decision)
  {
  }

  /** The workers of the round behind review `r` are told it, and those of the first round nothing. */
  lemma FeedbackReachesWorkers(crew: Crew, plan: Plan, rounds: seq<Round>, r: nat)
    requires r < |rounds| && IsRound(crew, plan, rounds, r)
    ensures rounds[r].repairContext
      == if r == 0 then None else Some(crew.wording(FeedbackFor(crew, r, rounds[r - 1])))
  {
  }

  // ---------------------------------------------------------------- the plan that is developed

  /** The first of three texts that is not empty is kept. */
  lemma FirstRoundWins(a: string, b: string, c: string)
    ensures a != "" ==> Preferred(Preferred(a, b), c) == a
    ensures a == "" && b != "" ==> Preferred(Preferred(a, b), c) == b
    ensures a == "" && b == "" ==> Preferred(Preferred(a, b), c) == c
  {
  }

  /** The architecture of a confirmed plan is the dispatch's, if it has one, else that of planning. */
  lemma DispatchedArchitectureWins(a: string, b: string, c: string, updated: PlanDoc)
    ensures var planned := Preferred(Preferred(a, b), c);
      FinalArchitecture(a, b, c, updated)
        == if Confirms(updated.tasks) && updated.architecture != "" then updated.architecture else planned
  {
  }

  /** A dispatch that failed, or lists no task, leaves the plan; one that parsed replaces its tasks. */
  lemma FailedDispatchIsIgnored(tasks: seq<WorkerTask>)
    requires FailedOrParsed(tasks)
    ensures Confirms(tasks) <==> tasks != [] && !Failed(tasks)
  {
    if tasks != [] {
      assert tasks[0] in tasks;
    }
  }
}
