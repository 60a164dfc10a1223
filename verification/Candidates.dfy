// `run_agent_with_task_id`: an agent run is tried on the candidate models in order until one attempt
// is not worth retrying.
module Candidates {
  import opened Text
  import opened AgentLoop
  import opened AgentRuns

  // ---------------------------------------------------------------- the fallback chain

  datatype Candidate = Candidate(provider: string, modelId: string, secretName: string)

  predicate IsAuthFailure(status: string) {
    || ContainsText(status, "401")
    || ContainsText(status, "403")
    || ContainsText(status, "Invalid API Key")
    || ContainsText(status, "invalid_key")
    || ContainsText(status, "Authentication")
    || ContainsText(status, "PermissionDenied")
  }

  predicate IsRetriableFailure(status: string) {
    && (StartsWith(status, "FAILED") || StartsWith(status, "TIMEOUT"))
    && !StartsWith(status, "FAILED: abort")
    && !StartsWith(status, "FAILED: cancel")
  }

  /** A candidate after `idx` uses a different secret. */
  predicate OtherKeyLater(candidates: seq<Candidate>, idx: nat)
    requires idx < |candidates|
  {
    exists j :: idx < j < |candidates| && candidates[j].secretName != candidates[idx].secretName
  }

  predicate GivesUpOnAuth(candidates: seq<Candidate>, idx: nat, status: string)
    requires idx < |candidates|
  {
    IsAuthFailure(status) && !OtherKeyLater(candidates, idx)
  }

  /** The attempt failed in a way that makes the next candidate worth trying. */
  predicate MovesOn(candidates: seq<Candidate>, idx: nat, status: string)
    requires idx < |candidates|
  {
    IsRetriableFailure(status) && (IsAuthFailure(status) ==> OtherKeyLater(candidates, idx))
  }

  function AuthError(c: Candidate, o: TaskOutcome): TaskOutcome {
    o.(status := "FAILED: auth_error (provider=" + c.provider + ", secret=" + c.secretName + "): " + o.status)
  }

  function ResultOf(candidates: seq<Candidate>, idx: nat, o: TaskOutcome): TaskOutcome
    requires idx < |candidates|
  {
    if GivesUpOnAuth(candidates, idx, o.status) then AuthError(candidates[idx], o) else o
  }

  /**
   * `attempt(k)` is the outcome candidate `k` would have. The candidates tried are the first
   * `tried`: all but the last failed retriably, and the last one did not or was the last there is.
   */
  ghost predicate IsFallbackRun(
    candidates: seq<Candidate>, attempt: nat -> TaskOutcome, tried: nat, outcome: TaskOutcome)
  {
    && 1 <= tried <= |candidates|
    && (forall k :: 0 <= k < tried - 1 ==> MovesOn(candidates, k, attempt(k).status))
    && (tried < |candidates| ==> !MovesOn(candidates, tried - 1, attempt(tried - 1).status))
    && outcome == ResultOf(candidates, tried - 1, attempt(tried - 1))
  }

  /** What the configured models of a role resolve to. */
  datatype Resolution = Candidates(list: seq<Candidate>) | Unresolved(error: string)

  /** A role, its candidates, and the attempt each of them would make. */
  datatype AgentRun = AgentRun(
    roleId: string, roleDisplay: string, resolution: Resolution, attempts: nat -> Attempt)

  predicate IsTried(run: AgentRun) {
    run.resolution.Candidates? && run.resolution.list != []
  }

  function OutcomeAt(run: AgentRun, k: nat): TaskOutcome {
    OutcomeOfAttempt(run.roleId, run.roleDisplay, run.attempts(k))
  }

  function Outcomes(run: AgentRun): nat -> TaskOutcome {
    (k: nat) => OutcomeAt(run, k)
  }

  /** The last candidate tried, when those before `k` moved on. */
  function LastTried(candidates: seq<Candidate>, attempt: nat -> TaskOutcome, k: nat): (last: nat)
    requires k < |candidates|
    ensures k <= last < |candidates|
    ensures forall j :: k <= j < last ==> MovesOn(candidates, j, attempt(j).status)
    ensures last + 1 < |candidates| ==> !MovesOn(candidates, last, attempt(last).status)
    decreases |candidates| - k
  {
    if k + 1 < |candidates| && MovesOn(candidates, k, attempt(k).status) then LastTried(candidates, attempt, k + 1)
    else k
  }

  function NoCandidates(roleId: string, roleDisplay: string): TaskOutcome {
    TaskOutcome(roleId, roleDisplay, "FAILED: no candidates resolved", None, "")
  }

  function UnresolvedRole(roleId: string, roleDisplay: string, error: string): TaskOutcome {
    TaskOutcome(
      roleId, roleDisplay, "FAILED: resolve: " + error,
      Some("未配置模型或密钥: " + error), "错误: 角色未配置模型或密钥 (" + error + ")")
  }

  /** The signals of the first `n` attempts. */
  function SentByFirst(run: AgentRun, n: nat): seq<Signal> {
    if n == 0 then [] else SentByFirst(run, n - 1) + SentDuring(run.roleDisplay, run.attempts(n - 1))
  }

  /** How many of the first `n` attempts are interrupted. */
  function InterruptedOfFirst(run: AgentRun, n: nat): nat {
    if n == 0 then 0 else InterruptedOfFirst(run, n - 1) + if Interrupted(run.attempts(n - 1)) then 1 else 0
  }

  lemma {:induction false} NoneInterruptedIff(run: AgentRun, n: nat)
    ensures InterruptedOfFirst(run, n) == 0 <==> forall k :: 0 <= k < n ==> !Interrupted(run.attempts(k))
  {
    if n > 0 {
      NoneInterruptedIff(run, n - 1);
    }
  }

  /** How many candidates are tried. */
  function TriedCount(run: AgentRun): nat {
    if IsTried(run) then LastTried(run.resolution.list, Outcomes(run), 0) + 1 else 0
  }

  function OutcomeOf(run: AgentRun): TaskOutcome {
    match run.resolution
    case Unresolved(error) => UnresolvedRole(run.roleId, run.roleDisplay, error)
    case Candidates(list) =>
      if list == [] then NoCandidates(run.roleId, run.roleDisplay)
      else
        var last := LastTried(list, Outcomes(run), 0);
        ResultOf(list, last, OutcomeAt(run, last))
  }

  /** Tries one candidate: its outcome, marked if authentication is given up, and whether to go on. */
  method TryCandidate(run: AgentRun, idx: nat) returns (outcome: TaskOutcome, sent: seq<Signal>, again: bool)
    requires IsTried(run) && idx < |run.resolution.list|
    ensures outcome == ResultOf(run.resolution.list, idx, OutcomeAt(run, idx))
    ensures sent == SentDuring(run.roleDisplay, run.attempts(idx))
    ensures again
      <==> idx + 1 < |run.resolution.list| && MovesOn(run.resolution.list, idx, OutcomeAt(run, idx).status)
  {
    var candidates := run.resolution.list;
    outcome, sent := DriveSingleAgent(run.roleId, run.roleDisplay, run.attempts(idx));
    if GivesUpOnAuth(candidates, idx, outcome.status) {
      AuthGivesUp(candidates, idx, outcome.status);
      outcome := AuthError(candidates[idx], outcome);
      return outcome, sent, false;
    }
    again := MovesOn(candidates, idx, outcome.status) && idx + 1 < |candidates|;
  }

  /** The candidates are tried in order, each attempt's events sent on as they come. */
  method RunWithFallback(run: AgentRun) returns (outcome: TaskOutcome, sent: seq<Signal>, ghost tried: nat)
    requires IsTried(run)
    ensures exists n :: IsFallbackRun(run.resolution.list, Outcomes(run), n, outcome)
    ensures outcome == OutcomeOf(run) && sent == SentByFirst(run, TriedCount(run))
    ensures tried == TriedCount(run) && IsFallbackRun(run.resolution.list, Outcomes(run), tried, outcome)
  {
    var idx, again := 0, false;
    outcome, sent, again := TryCandidate(run, 0);
    FirstIsTried(run, outcome, sent, again);
    while again
      invariant Trying(run, idx, outcome, sent, again)
      decreases |run.resolution.list| - idx
    {
      var next, signals, more := TryCandidate(run, idx + 1);
      NextIsTried(run, idx, outcome, sent, next, signals, more);
      idx, outcome, sent, again := idx + 1, next, sent + signals, more;
    }
    tried := idx + 1;
    TriedIsFallbackRun(run, idx, outcome, sent);
  }

  /** Candidate `idx` has been tried behind all before it; `again` says whether the next one will be. */
  ghost predicate Trying(run: AgentRun, idx: nat, outcome: TaskOutcome, sent: seq<Signal>, again: bool) {
    && IsTried(run)
    && var candidates := run.resolution.list;
    && idx < |candidates|
    && sent == SentByFirst(run, idx + 1)
    && outcome == ResultOf(candidates, idx, OutcomeAt(run, idx))
    && (again <==> idx + 1 < |candidates| && MovesOn(candidates, idx, OutcomeAt(run, idx).status))
    && LastTried(candidates, Outcomes(run), 0) == LastTried(candidates, Outcomes(run), idx)
  }

  lemma FirstIsTried(run: AgentRun, outcome: TaskOutcome, sent: seq<Signal>, again: bool)
    requires IsTried(run) && outcome == ResultOf(run.resolution.list, 0, OutcomeAt(run, 0))
    requires sent == SentDuring(run.roleDisplay, run.attempts(0))
    requires again <==> 1 < |run.resolution.list| && MovesOn(run.resolution.list, 0, OutcomeAt(run, 0).status)
    ensures Trying(run, 0, outcome, sent, again)
  {
    assert SentByFirst(run, 0) == [] && [] + sent == sent;
  }

  lemma NextIsTried(
    run: AgentRun, idx: nat, outcome: TaskOutcome, sent: seq<Signal>,
    next: TaskOutcome, signals: seq<Signal>, more: bool)
    requires Trying(run, idx, outcome, sent, true)
    requires next == ResultOf(run.resolution.list, idx + 1, OutcomeAt(run, idx + 1))
    requires signals == SentDuring(run.roleDisplay, run.attempts(idx + 1))
    requires more
      <==> idx + 2 < |run.resolution.list| && MovesOn(run.resolution.list, idx + 1, OutcomeAt(run, idx + 1).status)
    ensures Trying(run, idx + 1, next, sent + signals, more)
  {
  }

  lemma TriedIsFallbackRun(run: AgentRun, last: nat, outcome: TaskOutcome, sent: seq<Signal>)
    requires Trying(run, last, outcome, sent, false)
    ensures sent == SentByFirst(run, TriedCount(run))
    ensures outcome == OutcomeOf(run) && last + 1 == TriedCount(run)
    ensures IsFallbackRun(run.resolution.list, Outcomes(run), last + 1, outcome)
  {
    LastIsTried(run, last, outcome, sent);
    LastIsOutcome(run, last, outcome);
  }

  lemma LastIsTried(run: AgentRun, last: nat, outcome: TaskOutcome, sent: seq<Signal>)
    requires Trying(run, last, outcome, sent, false)
    ensures last == LastTried(run.resolution.list, Outcomes(run), 0)
    ensures outcome == ResultOf(run.resolution.list, last, OutcomeAt(run, last)) && sent == SentByFirst(run, last + 1)
  {
    assert Outcomes(run)(last) == OutcomeAt(run, last);
  }

  lemma LastIsOutcome(run: AgentRun, last: nat, outcome: TaskOutcome)
    requires IsTried(run) && last == LastTried(run.resolution.list, Outcomes(run), 0)
    requires outcome == ResultOf(run.resolution.list, last, OutcomeAt(run, last))
    ensures outcome == OutcomeOf(run) && last + 1 == TriedCount(run)
    ensures IsFallbackRun(run.resolution.list, Outcomes(run), last + 1, outcome)
  {
  }

  /** The whole agent run: nothing is attempted unless at least one candidate resolves. */
  method RunAgent(run: AgentRun) returns (outcome: TaskOutcome, sent: seq<Signal>)
    ensures outcome == OutcomeOf(run) && sent == SentByFirst(run, TriedCount(run))
    ensures run.resolution.Unresolved? ==>
      outcome == UnresolvedRole(run.roleId, run.roleDisplay, run.resolution.error) && sent == []
    ensures run.resolution == Candidates([]) ==> outcome == NoCandidates(run.roleId, run.roleDisplay) && sent == []
    ensures IsTried(run) ==> exists n :: IsFallbackRun(run.resolution.list, Outcomes(run), n, outcome)
  {
    match run.resolution {
      case Unresolved(error) =>
        outcome, sent := UnresolvedRole(run.roleId, run.roleDisplay, error), [];
      case Candidates(list) =>
        if list == [] {
          outcome, sent := NoCandidates(run.roleId, run.roleDisplay), [];
        } else {
          ghost var tried;
          outcome, sent, tried := RunWithFallback(run);
        }
    }
  }

  /** The attempts and the outcome are determined by what each candidate would answer. */
  lemma FallbackRunIsUnique(
    candidates: seq<Candidate>, attempt: nat -> TaskOutcome, m: nat, x: TaskOutcome, n: nat, y: TaskOutcome)
    requires IsFallbackRun(candidates, attempt, m, x) && IsFallbackRun(candidates, attempt, n, y)
    ensures m == n && x == y
  {
  }

  lemma AuthGivesUp(candidates: seq<Candidate>, idx: nat, status: string)
    requires idx < |candidates| && GivesUpOnAuth(candidates, idx, status)
    ensures !MovesOn(candidates, idx, status)
  {
  }

  /** One of the first `n` candidates uses the secret. */
  predicate SecretTried(candidates: seq<Candidate>, n: nat, secret: string)
    requires n <= |candidates|
  {
    exists k :: 0 <= k < n && candidates[k].secretName == secret
  }

  /** The errors an agent ends with do not read like a cancellation. */
  lemma ErrorIsNoCancellation(failed: string, text: string, abort: string, cancel: string)
    requires failed == "FAILED: " && abort == "FAILED: abort" && cancel == "FAILED: cancel" && |text| >= 2
    requires !(text[0] == 'a' && text[1] == 'b') && !(text[0] == 'c' && text[1] == 'a')
    ensures !StartsWith(failed + text, abort) && !StartsWith(failed + text, cancel)
    ensures StartsWith(failed + text, "FAILED")
  {
    assert abort[8] == 'a' && abort[9] == 'b' && cancel[8] == 'c' && cancel[9] == 'a';
    assert (failed + text)[8] == text[0] && (failed + text)[9] == text[1];
    assert failed[..6] == "FAILED" && (failed + text)[..6] == failed[..6];
  }

  /** Of the statuses an agent ends with, exactly the errors are retriable. */
  lemma RetriableIff(status: Status)
    ensures IsRetriableFailure(StatusText(status)) <==> status.StatusFailed?
  {
    EveryStatusIsTerminal(status);
    if status.StatusFailed? {
      ErrorTextStarts(status.error);
      ErrorIsNoCancellation("FAILED: ", ErrorText(status.error), "FAILED: abort", "FAILED: cancel");
    }
  }

  /**
   * Of the ends an agent run can have, exactly the errors lead to the next candidate, those of
   * authentication only if another secret is left.
   */
  lemma OnlyErrorsMoveOn(candidates: seq<Candidate>, idx: nat, status: Status)
    requires idx < |candidates|
    ensures MovesOn(candidates, idx, StatusText(status))
      <==> status.StatusFailed? && (IsAuthFailure(StatusText(status)) ==> AnotherSecretLeft(candidates, idx))
  {
    RetriableIff(status);
  }

  /** Not all candidates from `idx` on share their secret. */
  predicate AnotherSecretLeft(candidates: seq<Candidate>, idx: nat)
    requires idx < |candidates|
  {
    !forall j :: idx <= j < |candidates| ==> candidates[j].secretName == candidates[idx].secretName
  }

  // ---------------------------------------------------------------- giving up on authentication

  const AUTH_MARK := "FAILED: auth_error"

  /** The texts of errors start with other letters than the mark goes on with. */
  lemma ErrorIsNoMark(failed: string, text: string, mark: string)
    requires failed == "FAILED: " && mark == AUTH_MARK && |text| >= 2
    requires !(text[0] == 'a' && text[1] == 'u')
    ensures !StartsWith(failed + text, mark)
  {
    assert mark[8] == 'a' && mark[9] == 'u';
    assert (failed + text)[8] == text[0] && (failed + text)[9] == text[1];
  }

  lemma ErrorTextStarts(e: AgentError)
    ensures var t := ErrorText(e);
      |t| >= 2 && ((t[0] == 'c' && t[1] == 'o') || t[0] == 'p' || (t[0] == 'a' && t[1] == 'g'))
  {
    var context: string, provider: string, limit: string :=
      "context budget exhausted ", "provider error: ", "agent loop hit max iterations (";
    assert context[0] == 'c' && context[1] == 'o' && provider[0] == 'p' && limit[0] == 'a' && limit[1] == 'g';
    match e
    case ContextBudgetExhausted(used, limit) =>
      assert ErrorText(e)[0] == context[0] && ErrorText(e)[1] == context[1];
    case ProviderError(message) => assert ErrorText(e)[0] == provider[0];
    case MaxIterationsReached(n) => assert ErrorText(e)[0] == limit[0] && ErrorText(e)[1] == limit[1];
  }

  lemma NotFailedIsNoMark(s: string, mark: string)
    requires mark == AUTH_MARK && |s| > 0 && s[0] != 'F'
    ensures !StartsWith(s, mark)
  {
    assert mark[0] == 'F';
  }

  /** No attempt of its own reports the mark. */
  lemma AttemptsHaveNoMark(a: Attempt)
    ensures !StartsWith(StatusOf(a), AUTH_MARK)
  {
    AttemptStatuses(a);
    var s := StatusOf(a);
    if status :| s == StatusText(status) {
      match status
      case StatusDone => NotFailedIsNoMark(s, AUTH_MARK);
      case StatusAborted => NotFailedIsNoMark(s, AUTH_MARK);
      case StatusAbortedRepeat => NotFailedIsNoMark(s, AUTH_MARK);
      case StatusFailed(error) =>
        ErrorTextStarts(error);
        ErrorIsNoMark("FAILED: ", ErrorText(error), AUTH_MARK);
    } else {
      NotFailedIsNoMark(s, AUTH_MARK);
    }
  }

  lemma AuthErrorHasMark(c: Candidate, o: TaskOutcome)
    ensures StartsWith(AuthError(c, o).status, AUTH_MARK)
  {
    var start: string := "FAILED: auth_error (provider=";
    assert start[..18] == AUTH_MARK;
    assert AuthError(c, o).status[..|start|] == start;
    assert AuthError(c, o).status[..18] == start[..18];
  }

  lemma EverySecretTried(candidates: seq<Candidate>, last: nat)
    requires last < |candidates| && !OtherKeyLater(candidates, last)
    ensures forall j :: 0 <= j < |candidates| ==> SecretTried(candidates, last + 1, candidates[j].secretName)
  {
    forall j | 0 <= j < |candidates|
      ensures SecretTried(candidates, last + 1, candidates[j].secretName)
    {
      var k := if j <= last then j else last;
      assert candidates[k].secretName == candidates[j].secretName;
    }
  }

  lemma MarkIffGivenUp(candidates: seq<Candidate>, last: nat, o: TaskOutcome)
    requires last < |candidates| && !StartsWith(o.status, AUTH_MARK)
    ensures StartsWith(ResultOf(candidates, last, o).status, AUTH_MARK) <==> GivesUpOnAuth(candidates, last, o.status)
  {
    if GivesUpOnAuth(candidates, last, o.status) {
      AuthErrorHasMark(candidates[last], o);
    }
  }

  lemma OutcomeIsLastResult(run: AgentRun) returns (last: nat)
    requires IsTried(run)
    ensures last + 1 == TriedCount(run) && last < |run.resolution.list|
    ensures OutcomeOf(run) == ResultOf(run.resolution.list, last, OutcomeAt(run, last))
    ensures OutcomeAt(run, last).status == StatusOf(run.attempts(last))
  {
    last := LastTried(run.resolution.list, Outcomes(run), 0);
  }

  /**
   * An agent run is reported as an authentication error iff its last attempt failed to authenticate
   * and no candidate behind it has another secret; every secret of the list has been tried by then.
   */
  lemma AuthErrorIsReportedIff(run: AgentRun)
    requires IsTried(run)
    ensures var list, last := run.resolution.list, TriedCount(run) - 1;
      && (StartsWith(OutcomeOf(run).status, AUTH_MARK)
          <==> IsAuthFailure(OutcomeAt(run, last).status) && !AnotherSecretLeft(list, last))
      && (StartsWith(OutcomeOf(run).status, AUTH_MARK) ==>
            forall j :: 0 <= j < |list| ==> SecretTried(list, last + 1, list[j].secretName))
  {
    var list := run.resolution.list;
    var last := OutcomeIsLastResult(run);
    AttemptsHaveNoMark(run.attempts(last));
    MarkIffGivenUp(list, last, OutcomeAt(run, last));
    if !OtherKeyLater(list, last) {
      EverySecretTried(list, last);
    }
  }

  // ---------------------------------------------------------------- numbers taken for HTTP codes

  /** A text without some character of `sub` does not contain `sub`. */
  lemma {:induction false} TextLacks(s: string, sub: string, k: nat)
    requires k < |sub| && Lacks(s, sub[k])
    ensures !ContainsText(s, sub)
  {
    if !(sub <= s) && s != "" {
      TextLacks(s[1..], sub, k);
    }
  }

  /** One character of each wording that marks an authentication failure, codes aside. */
  predicate LacksAuthWording(s: string) {
    Lacks(s, 'y') && Lacks(s, '_') && Lacks(s, 'i') && Lacks(s, 'P')
  }

  lemma OnlyCodesMatter(s: string)
    requires LacksAuthWording(s)
    ensures IsAuthFailure(s) <==> ContainsText(s, "401") || ContainsText(s, "403")
  {
    var key, invalid, authentication, permission := "Invalid API Key", "invalid_key", "Authentication", "PermissionDenied";
    assert key[14] == 'y' && invalid[7] == '_' && authentication[7] == 'i' && permission[0] == 'P';
    TextLacks(s, key, 14);
    TextLacks(s, invalid, 7);
    TextLacks(s, authentication, 7);
    TextLacks(s, permission, 0);
  }

  lemma NoCodeNoAuth(s: string)
    requires LacksAuthWording(s) && Lacks(s, '4')
    ensures !IsAuthFailure(s)
  {
    OnlyCodesMatter(s);
    TextLacks(s, "401", 0);
    TextLacks(s, "403", 0);
  }

  lemma TimeoutIsRetriable(status: string)
    requires StartsWith(status, "TIMEOUT")
    ensures IsRetriableFailure(status)
  {
    assert status[0] == 'T';
  }

  lemma TimeoutIsNoAuthFailure()
    ensures StartsWith(TIMEOUT_STATUS, "TIMEOUT") && !IsAuthFailure(TIMEOUT_STATUS)
  {
    assert TIMEOUT_STATUS[..7] == "TIMEOUT";
    assert LacksAuthWording(TIMEOUT_STATUS) && Lacks(TIMEOUT_STATUS, '4');
    NoCodeNoAuth(TIMEOUT_STATUS);
  }

  /** An attempt that times out is retried like a failed one, whatever the comment beside the test says. */
  lemma TimeoutsMoveOn(candidates: seq<Candidate>, idx: nat, a: Attempt)
    requires idx < |candidates| && Interrupted(a) && a.race.TimedOutAfter?
    ensures MovesOn(candidates, idx, StatusOf(a))
  {
    TimeoutIsNoAuthFailure();
    TimeoutIsRetriable(StatusOf(a));
  }

  /** A text without `c` is found around a separator `c` iff it is found on one side of it. */
  lemma {:induction false} ContainsAroundSeparator(a: string, c: char, b: string, sub: string)
    requires Lacks(sub, c) && sub != ""
    ensures ContainsText(a + [c] + b, sub) <==> ContainsText(a, sub) || ContainsText(b, sub)
  {
    var s := a + [c] + b;
    PrefixStopsAtSeparator(a, c, b, sub);
    if a == "" {
      assert s[1..] == b;
    } else {
      assert s[1..] == a[1..] + [c] + b;
      ContainsAroundSeparator(a[1..], c, b, sub);
    }
  }

  lemma PrefixStopsAtSeparator(a: string, c: char, b: string, sub: string)
    requires Lacks(sub, c)
    ensures sub <= a + [c] + b <==> sub <= a
  {
    var s := a + [c] + b;
    assert s[..|a|] == a && s[|a|] == c;
    assert |sub| > |a| ==> sub[|a|] != s[|a|];
    assert |sub| <= |a| ==> s[..|sub|] == a[..|sub|];
  }

  lemma SentenceContains(w0: string, u: string, w1: string, l: string, w2: string, sub: string)
    requires sub != "" && Lacks(sub, '(') && Lacks(sub, ' ')
    requires !ContainsText(w0, sub) && !ContainsText(w1, sub) && !ContainsText(w2, sub)
    ensures ContainsText(Sentence(w0, u, w1, l, w2), sub) <==> ContainsText(u, sub) || ContainsText(l, sub)
  {
    ContainsAroundSeparator(w0, '(', u + [' '] + (w1 + [' '] + (l + [' '] + w2)), sub);
    ContainsAroundSeparator(u, ' ', w1 + [' '] + (l + [' '] + w2), sub);
    ContainsAroundSeparator(w1, ' ', l + [' '] + w2, sub);
    ContainsAroundSeparator(l, ' ', w2, sub);
  }

  lemma SentenceLacks(w0: string, u: string, w1: string, l: string, w2: string, c: char)
    requires c != '(' && c != ' '
    requires Lacks(w0, c) && Lacks(u, c) && Lacks(w1, c) && Lacks(l, c) && Lacks(w2, c)
    ensures Lacks(Sentence(w0, u, w1, l, w2), c)
  {
  }

  const CONTEXT_WORDS := "FAILED: context budget exhausted "

  lemma ContextStatusParts(used: nat, limit: nat)
    ensures StatusText(StatusFailed(ContextBudgetExhausted(used, limit)))
      == Sentence(CONTEXT_WORDS, Decimal(used), "/", Decimal(limit), "tokens)")
  {
    var words: string := "context budget exhausted ";
    assert "FAILED: " + words == CONTEXT_WORDS;
    SentenceAfter("FAILED: ", words, Decimal(used), "/", Decimal(limit), "tokens)");
  }

  lemma SentenceAfter(p: string, w0: string, u: string, w1: string, l: string, w2: string)
    ensures p + Sentence(w0, u, w1, l, w2) == Sentence(p + w0, u, w1, l, w2)
  {
  }

  lemma ContextStatusContains(used: nat, limit: nat, code: string)
    requires code != "" && (forall k :: 0 <= k < |code| ==> '0' <= code[k] <= '9')
    ensures ContainsText(StatusText(StatusFailed(ContextBudgetExhausted(used, limit))), code)
      <==> ContainsText(Decimal(used), code) || ContainsText(Decimal(limit), code)
  {
    ContextStatusParts(used, limit);
    WordsHaveNoCodes(code);
    SentenceContains(CONTEXT_WORDS, Decimal(used), "/", Decimal(limit), "tokens)", code);
  }

  lemma WordsHaveNoCodes(code: string)
    requires code != "" && '0' <= code[0] <= '9'
    ensures !ContainsText(CONTEXT_WORDS, code) && !ContainsText("/", code) && !ContainsText("tokens)", code)
  {
    WordsHaveNoDigit(code[0]);
    TextLacks(CONTEXT_WORDS, code, 0);
    TextLacks("/", code, 0);
    TextLacks("tokens)", code, 0);
  }

  lemma WordsHaveNoDigit(c: char)
    requires '0' <= c <= '9'
    ensures Lacks(CONTEXT_WORDS, c) && Lacks("/", c) && Lacks("tokens)", c)
  {
  }

  lemma ContextStatusLacks(used: nat, limit: nat, c: char)
    requires c == 'y' || c == '_' || c == 'i' || c == 'P'
    ensures Lacks(StatusText(StatusFailed(ContextBudgetExhausted(used, limit))), c)
  {
    DecimalIsDigits(used);
    DecimalIsDigits(limit);
    ContextStatusParts(used, limit);
    SentenceLacks(CONTEXT_WORDS, Decimal(used), "/", Decimal(limit), "tokens)", c);
  }

  predicate HoldsCode(used: nat, limit: nat) {
    || ContainsText(Decimal(used), "401") || ContainsText(Decimal(used), "403")
    || ContainsText(Decimal(limit), "401") || ContainsText(Decimal(limit), "403")
  }

  /**
   * The status of a run that ends because the context is too large passes the test for
   * authentication failures iff one of its two token counts contains the digits 401 or 403.
   */
  lemma ContextErrorLooksLikeAuthIff(used: nat, limit: nat)
    ensures IsAuthFailure(StatusText(StatusFailed(ContextBudgetExhausted(used, limit)))) <==> HoldsCode(used, limit)
  {
    ContextStatusContains(used, limit, "401");
    ContextStatusContains(used, limit, "403");
    ContextStatusLacks(used, limit, 'y');
    ContextStatusLacks(used, limit, '_');
    ContextStatusLacks(used, limit, 'i');
    ContextStatusLacks(used, limit, 'P');
    OnlyCodesMatter(StatusText(StatusFailed(ContextBudgetExhausted(used, limit))));
  }

  /**
   * If the last attempt's context is too large, the agent run is reported as an authentication error
   * iff one of the token counts contains 401 or 403 and no candidate behind it has another secret.
   */
  lemma ContextErrorIsReportedAsAuthIff(run: AgentRun, used: nat, limit: nat)
    requires IsTried(run)
    requires OutcomeAt(run, TriedCount(run) - 1).status == StatusText(StatusFailed(ContextBudgetExhausted(used, limit)))
    ensures StartsWith(OutcomeOf(run).status, AUTH_MARK)
      <==> HoldsCode(used, limit) && !AnotherSecretLeft(run.resolution.list, TriedCount(run) - 1)
  {
    AuthErrorIsReportedIff(run);
    ContextErrorLooksLikeAuthIff(used, limit);
  }

  /** An agent whose history is too large. */
  function TooLarge(used: nat, limit: nat): Attempt {
    var error := ContextBudgetExhausted(used, limit);
    Attempt([Done(StatusFailed(error), ErrorSummary(error))], NoInterruption)
  }

  /** For example a history of 240 100 tokens and a single candidate. */
  lemma ContextErrorTakenForAuthFailure(roleId: string, roleDisplay: string, c: Candidate)
    ensures StartsWith(
      OutcomeOf(AgentRun(roleId, roleDisplay, Candidates([c]), _ => TooLarge(240_100, 200_000))).status, AUTH_MARK)
  {
    var run := AgentRun(roleId, roleDisplay, Candidates([c]), _ => TooLarge(240_100, 200_000));
    DigitsOf240100();
    assert TriedCount(run) == 1;
    var a := TooLarge(240_100, 200_000);
    assert UntilDone(a.events) == a.events;
    ContextErrorIsReportedAsAuthIff(run, 240_100, 200_000);
  }

  lemma DigitsOf240100()
    ensures ContainsText(Decimal(240_100), "401")
  {
    assert Decimal(24) == "24" by {
      assert Decimal(2) == "2";
    }
    assert Decimal(240) == "240" && Decimal(2401) == "2401" && Decimal(24_010) == "24010";
    var s := "240100";
    assert Decimal(240_100) == s;
    assert "401" <= s[1..];
  }

  // ---------------------------------------------------------------- what the workflow sees of a run

  /** The outcome of an agent run, what it sent, and how many of its attempts were interrupted. */
  datatype Report = Report(outcome: TaskOutcome, sent: seq<Signal>, interruptions: nat)

  function ReportOf(run: AgentRun): Report {
    Report(OutcomeOf(run), SentByFirst(run, TriedCount(run)), InterruptedOfFirst(run, TriedCount(run)))
  }

  ghost predicate IsReport(r: Report) {
    exists run :: r == ReportOf(run)
  }

  function Gathered(parts: nat -> seq<Signal>, n: nat): seq<Signal> {
    if n == 0 then [] else Gathered(parts, n - 1) + parts(n - 1)
  }

  function Summed(counts: nat -> nat, n: nat): nat {
    if n == 0 then 0 else Summed(counts, n - 1) + counts(n - 1)
  }

  lemma {:induction false} GatheredCounts(parts: nat -> seq<Signal>, counts: nat -> nat, n: nat)
    requires forall k :: 0 <= k < n ==> AgentDoneCount(parts(k)) == counts(k)
    ensures AgentDoneCount(Gathered(parts, n)) == Summed(counts, n)
  {
    if n > 0 {
      GatheredCounts(parts, counts, n - 1);
      AgentDoneConcat(Gathered(parts, n - 1), parts(n - 1));
    }
  }

  function PartsOf(run: AgentRun): nat -> seq<Signal> {
    (k: nat) => SentDuring(run.roleDisplay, run.attempts(k))
  }

  function EndsOf(run: AgentRun): nat -> nat {
    (k: nat) => if Interrupted(run.attempts(k)) then 1 else 0
  }

  lemma {:induction false} FirstAreGathered(run: AgentRun, n: nat)
    ensures SentByFirst(run, n) == Gathered(PartsOf(run), n)
    ensures InterruptedOfFirst(run, n) == Summed(EndsOf(run), n)
  {
    if n > 0 {
      FirstAreGathered(run, n - 1);
    }
  }

  lemma OwnEndsOfFirst(run: AgentRun, n: nat)
    ensures AgentDoneCount(SentByFirst(run, n)) == InterruptedOfFirst(run, n)
  {
    forall k | 0 <= k < n
      ensures AgentDoneCount(PartsOf(run)(k)) == EndsOf(run)(k)
    {
      OwnEndCount(run.roleDisplay, run.attempts(k));
    }
    GatheredCounts(PartsOf(run), EndsOf(run), n);
    FirstAreGathered(run, n);
  }

  /** The orchestrator sends one done event of its own for every interrupted attempt. */
  lemma OwnEndsOfReport(r: Report)
    requires IsReport(r)
    ensures AgentDoneCount(r.sent) == r.interruptions
  {
    var run :| r == ReportOf(run);
    OwnEndsOfFirst(run, TriedCount(run));
  }
}
