// Which attempts are followed by the next candidate, which statuses count as authentication failures, and
// what a fallback run sends and reports.
module FallbackLaws {
  import opened Text
  import opened TextLaws
  import opened AgentLoop
  import opened AgentRuns
  import opened Candidates

  // ---------------------------------------------------------------- authentication failures

  /** Some wording of an authentication failure stands somewhere in the text. */
  ghost predicate NamesAuthFailure(s: string) {
    exists word, k: nat :: word in AUTH_WORDS && StandsAt(s, word, k)
  }

  const AUTH_WORDS: set<string> :=
    {"401", "403", "Invalid API Key", "invalid_key", "Authentication", "PermissionDenied"}

  lemma AuthFailureIff(s: string)
    ensures IsAuthFailure(s) <==> NamesAuthFailure(s)
  {
    ContainsIff(s, "401");
    ContainsIff(s, "403");
    ContainsIff(s, "Invalid API Key");
    ContainsIff(s, "invalid_key");
    ContainsIff(s, "Authentication");
    ContainsIff(s, "PermissionDenied");
  }

  // ---------------------------------------------------------------- the next candidate

  /** The agent ends with an error, or its time is up before it ends. */
  predicate FailsOrTimesOut(a: Attempt) {
    var received := ReceivedBy(a);
    if Interrupted(a) then a.race.TimedOutAfter?
    else EndsDone(received) && received[|received| - 1].status.StatusFailed?
  }

  lemma CancellationsAreNotRetried(rest: string)
    ensures !IsRetriableFailure("FAILED: abort" + rest) && !IsRetriableFailure("FAILED: cancel" + rest)
    ensures !IsRetriableFailure("ABORTED") && !IsRetriableFailure("UNKNOWN")
  {
    assert "ABORTED"[0] == 'A' && "UNKNOWN"[0] == 'U' && "FAILED"[0] == 'F' && "TIMEOUT"[0] == 'T';
    assert ("FAILED: abort" + rest)[..13] == "FAILED: abort";
    assert ("FAILED: cancel" + rest)[..14] == "FAILED: cancel";
  }

  /** An error or a timeout that another candidate may not run into. */
  ghost predicate WorthAnother(candidates: seq<Candidate>, idx: nat, a: Attempt)
    requires idx < |candidates|
  {
    FailsOrTimesOut(a) && (NamesAuthFailure(StatusOf(a)) ==> AnotherSecretLeft(candidates, idx))
  }

  /**
   * An attempt is followed by the next candidate iff the agent ends with an error or times out, and in
   * case of an authentication failure only if not all candidates from this one on share the secret.
   */
  lemma MovesOnIff(candidates: seq<Candidate>, idx: nat, a: Attempt)
    requires idx < |candidates|
    ensures MovesOn(candidates, idx, StatusOf(a)) <==> WorthAnother(candidates, idx, a)
  {
    AuthFailureIff(StatusOf(a));
    CancellationsAreNotRetried("");
    if Interrupted(a) {
      if a.race.TimedOutAfter? {
        TimeoutsMoveOn(candidates, idx, a);
      }
    } else if EndsDone(ReceivedBy(a)) {
      OnlyErrorsMoveOn(candidates, idx, ReceivedBy(a)[|ReceivedBy(a)| - 1].status);
    }
  }

  /** The first `k + 1` attempts are all followed by the next candidate. */
  ghost predicate AllMoveOn(run: AgentRun, k: nat)
    requires IsTried(run) && k < |run.resolution.list|
  {
    forall j :: 0 <= j <= k ==> WorthAnother(run.resolution.list, j, run.attempts(j))
  }

  /** A candidate behind the first is tried iff all before it failed in a way that another one may not. */
  lemma CandidateIsTriedIff(run: AgentRun, k: nat)
    requires IsTried(run) && k + 1 < |run.resolution.list|
    ensures k + 1 < TriedCount(run) <==> AllMoveOn(run, k)
  {
    var list, last := run.resolution.list, LastTried(run.resolution.list, Outcomes(run), 0);
    forall j: nat | j < |list|
      ensures MovesOn(list, j, Outcomes(run)(j).status) <==> WorthAnother(list, j, run.attempts(j))
    {
      MovesOnIff(list, j, run.attempts(j));
    }
    if AllMoveOn(run, k) {
      assert last > k;
    }
  }

  /** For example: a provider that fails is followed by the next one. */
  lemma FailedProviderFallsBack(run: AgentRun, message: string)
    requires IsTried(run) && |run.resolution.list| >= 2
    requires run.attempts(0)
      == Attempt([Done(StatusFailed(ProviderError(message)), ErrorSummary(ProviderError(message)))], NoInterruption)
    requires !NamesAuthFailure(StatusOf(run.attempts(0)))
    ensures TriedCount(run) >= 2
  {
    var events := run.attempts(0).events;
    assert UntilDone(events) == events;
    CandidateIsTriedIff(run, 0);
  }

  // ---------------------------------------------------------------- what a run sends and reports

  /** The signals of the attempts go out one attempt after the other. */
  lemma {:induction false} SentInOrder(run: AgentRun, k: nat, n: nat)
    requires k < n
    ensures SentByFirst(run, k) + SentDuring(run.roleDisplay, run.attempts(k)) <= SentByFirst(run, n)
  {
    var before, sent := SentByFirst(run, n - 1), SentDuring(run.roleDisplay, run.attempts(n - 1));
    assert SentByFirst(run, n) == before + sent;
    if k + 1 < n {
      SentInOrder(run, k, n - 1);
      StaysInFront(SentByFirst(run, k) + SentDuring(run.roleDisplay, run.attempts(k)), before, sent);
    }
  }

  lemma StaysInFront(front: seq<Signal>, before: seq<Signal>, sent: seq<Signal>)
    requires front <= before
    ensures front <= before + sent
  {
  }

  lemma {:induction false} NothingElseIsSent(run: AgentRun, n: nat)
    ensures |SentByFirst(run, n)| == SentLength(run, n)
  {
    if n > 0 {
      NothingElseIsSent(run, n - 1);
    }
  }

  function SentLength(run: AgentRun, n: nat): nat {
    if n == 0 then 0 else SentLength(run, n - 1) + |SentDuring(run.roleDisplay, run.attempts(n - 1))|
  }

  /** An authentication error names the provider and the secret and quotes the failure; the rest is kept. */
  lemma AuthErrorTells(c: Candidate, o: TaskOutcome)
    ensures var e := AuthError(c, o);
      && ContainsText(e.status, c.provider) && ContainsText(e.status, c.secretName) && ContainsText(e.status, o.status)
      && e.text == o.text && e.summary == o.summary && e.roleId == o.roleId && e.roleDisplay == o.roleDisplay
  {
    ContainsParts("FAILED: auth_error (provider=", c.provider, ", secret=", c.secretName, "): ", o.status);
  }

  lemma ContainsParts(a: string, p: string, b: string, q: string, c: string, r: string)
    ensures var s := a + p + b + q + c + r; ContainsText(s, p) && ContainsText(s, q) && ContainsText(s, r)
  {
    var s := a + p + b + q + c + r;
    ContainsMiddle(a, p, b + q + c + r);
    assert a + p + (b + q + c + r) == s;
    ContainsMiddle(a + p + b, q, c + r);
    assert a + p + b + q + (c + r) == s;
    ContainsMiddle(a + p + b + q + c, r, "");
    assert a + p + b + q + c + r + "" == s;
  }

  // ---------------------------------------------------------------- what texts tell

  /** The text of an error quotes the provider, or names the counts or the limit. */
  lemma ErrorTextTells(message: string, used: nat, limit: nat)
    ensures ContainsText(ErrorText(ProviderError(message)), message)
    ensures ContainsText(ErrorText(MaxIterationsReached(limit)), Decimal(limit))
    ensures var text := ErrorText(ContextBudgetExhausted(used, limit));
      ContainsText(text, Decimal(used)) && ContainsText(text, Decimal(limit))
  {
    ContainsEnd("provider error: ", message);
    ContainsMiddle("agent loop hit max iterations (", Decimal(limit), ")");
    SentenceTells("context budget exhausted ", Decimal(used), "/", Decimal(limit), "tokens)");
  }

  lemma ContainsEnd(front: string, s: string)
    ensures ContainsText(front + s, s)
  {
    ContainsMiddle(front, s, "");
    assert front + s + "" == front + s;
  }

  lemma SentenceTells(w0: string, u: string, w1: string, l: string, w2: string)
    ensures ContainsText(Sentence(w0, u, w1, l, w2), u) && ContainsText(Sentence(w0, u, w1, l, w2), l)
  {
    var s := Sentence(w0, u, w1, l, w2);
    ContainsMiddle(w0 + ['('], u, [' '] + (w1 + [' '] + (l + [' '] + w2)));
    assert w0 + ['('] + u + ([' '] + (w1 + [' '] + (l + [' '] + w2))) == s;
    ContainsMiddle(w0 + ['('] + (u + [' '] + (w1 + [' '])), l, [' '] + w2);
    assert w0 + ['('] + (u + [' '] + (w1 + [' '])) + l + ([' '] + w2) == s;
  }

  /** A failure's status quotes its error; summaries are the model's text, the error, or name tool and count. */
  lemma StatusAndSummaryTell(error: AgentError, text: string, tool: string, times: nat)
    ensures ContainsText(StatusText(StatusFailed(error)), ErrorText(error))
    ensures SummaryText(ModelText(text)) == text && SummaryText(ErrorSummary(error)) == ErrorText(error)
    ensures var s := SummaryText(RepeatedFailure(tool, times)); ContainsText(s, tool) && ContainsText(s, Decimal(times))
  {
    ContainsEnd("FAILED: ", ErrorText(error));
    RepeatTells(tool, times);
  }

  lemma RepeatTells(tool: string, times: nat)
    ensures var s := SummaryText(RepeatedFailure(tool, times)); ContainsText(s, tool) && ContainsText(s, Decimal(times))
  {
    var a, b, c: string := "aborted: ", " failed ", " times in a row with the same arguments";
    ContainsParts(a, tool, b, Decimal(times), c, "");
    assert a + tool + b + Decimal(times) + c + "" == SummaryText(RepeatedFailure(tool, times));
  }

  /** A role that does not resolve says why, in its status, its summary and its text. */
  lemma UnresolvedRoleTells(roleId: string, roleDisplay: string, error: string)
    ensures var o := UnresolvedRole(roleId, roleDisplay, error);
      && o.summary.Some? && ContainsText(o.status, error) && ContainsText(o.summary.value, error)
      && ContainsText(o.text, error) && o.roleId == roleId && o.roleDisplay == roleDisplay
  {
    ContainsEnd("FAILED: resolve: ", error);
    ContainsEnd("未配置模型或密钥: ", error);
    ContainsMiddle("错误: 角色未配置模型或密钥 (", error, ")");
  }
}
