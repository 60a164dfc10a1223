// `drive_single_agent`: the events of an agent are received and forwarded until its done event, unless
// the workflow is cancelled or the agent times out first; then the orchestrator sends a done event of
// its own.
module AgentRuns {
  import opened Text
  import opened AgentLoop
  import AgentTheorems
  import Context

  datatype TaskOutcome = TaskOutcome(
    roleId: string,
    roleDisplay: string,
    status: string,
    summary: Option<string>,
    text: string)

  // ---------------------------------------------------------------- statuses and summaries as text

  /** Words and numbers of a message: `w0(u w1 l w2`. */
  function Sentence(w0: string, u: string, w1: string, l: string, w2: string): string {
    w0 + ['('] + (u + [' '] + (w1 + [' '] + (l + [' '] + w2)))
  }

  function ContextErrorText(used: nat, limit: nat): string {
    Sentence("context budget exhausted ", Decimal(used), "/", Decimal(limit), "tokens)")
  }

  function ErrorText(e: AgentError): string {
    match e
    case ContextBudgetExhausted(used, limit) => ContextErrorText(used, limit)
    case ProviderError(message) => "provider error: " + message
    case MaxIterationsReached(limit) => "agent loop hit max iterations (" + Decimal(limit) + ")"
  }

  function StatusText(status: Status): string {
    match status
    case StatusDone => "DONE"
    case StatusAborted => "ABORTED"
    case StatusAbortedRepeat => "ABORTED_REPEAT"
    case StatusFailed(error) => "FAILED: " + ErrorText(error)
  }

  function SummaryText(summary: Summary): string {
    match summary
    case ModelText(text) => text
    case CancelledByUser => "cancelled by user"
    case RepeatedFailure(tool, times) =>
      "aborted: " + tool + " failed " + Decimal(times) + " times in a row with the same arguments"
    case ErrorSummary(error) => ErrorText(error)
  }

  predicate IsTerminal(status: string) {
    || status == "DONE"
    || StartsWith(status, "FAILED") || StartsWith(status, "ABORTED") || StartsWith(status, "TIMEOUT")
  }

  lemma EveryStatusIsTerminal(status: Status)
    ensures IsTerminal(StatusText(status))
    ensures StartsWith(StatusText(status), "FAILED") <==> status.StatusFailed?
    ensures !StartsWith(StatusText(status), "TIMEOUT")
  {
    assert "FAILED"[0] == 'F' && "TIMEOUT"[0] == 'T';
    assert status.StatusFailed? ==> "FAILED: "[..6] == "FAILED" && StatusText(status)[..6] == "FAILED";
    assert StatusText(status)[0] == match status
      case StatusDone => 'D'
      case StatusAborted => 'A'
      case StatusAbortedRepeat => 'A'
      case StatusFailed(_) => 'F';
  }

  /** A run whose channel closes early is not taken for one that ended. */
  lemma UnknownIsNotTerminal()
    ensures !IsTerminal("UNKNOWN")
  {
    assert "UNKNOWN"[0] == 'U' && "FAILED"[0] == 'F' && "ABORTED"[0] == 'A' && "TIMEOUT"[0] == 'T' && "DONE"[0] == 'D';
  }

  // ---------------------------------------------------------------- one attempt

  /** What reaches the workflow's channel: the agent's events, and done events under the workflow's id. */
  datatype Signal = Forwarded(event: Event) | AgentDone(status: string, summary: string)

  /**
   * Whether the cancellation token fires or the time is up before the agent is done, and how many of
   * its events have been received by then.
   */
  datatype Race = NoInterruption | CancelledAfter(received: nat) | TimedOutAfter(received: nat)

  /** The events an agent would send, and what it races against. */
  datatype Attempt = Attempt(events: seq<Event>, race: Race)

  /** The events up to the first done event: nothing is received behind it. */
  function UntilDone(events: seq<Event>): seq<Event> {
    if events == [] then []
    else if events[0].Done? then [events[0]]
    else [events[0]] + UntilDone(events[1..])
  }

  predicate EndsDone(events: seq<Event>) {
    events != [] && events[|events| - 1].Done?
  }

  /** The token or the timeout fires before the done event is received. */
  predicate Interrupted(a: Attempt) {
    && !a.race.NoInterruption?
    && var all := UntilDone(a.events);
       if EndsDone(all) then a.race.received < |all| else a.race.received <= |all|
  }

  function ReceivedBy(a: Attempt): seq<Event>
  {
    if Interrupted(a) then UntilDone(a.events)[..a.race.received] else UntilDone(a.events)
  }

  function AllForwarded(events: seq<Event>): (signals: seq<Signal>)
    ensures |signals| == |events|
  {
    seq(|events|, k requires 0 <= k < |events| => Forwarded(events[k]))
  }

  const TIMEOUT_STATUS := "TIMEOUT (300s)"
  const CANCEL_SUMMARY := "workflow cancelled by user"

  function OwnEnd(roleDisplay: string, race: Race): seq<Signal> {
    match race
    case NoInterruption => []
    case CancelledAfter(_) => [AgentDone("ABORTED", CANCEL_SUMMARY)]
    case TimedOutAfter(_) => [AgentDone(TIMEOUT_STATUS, "agent " + roleDisplay + " exceeded 300s")]
  }

  function SentDuring(roleDisplay: string, a: Attempt): seq<Signal> {
    AllForwarded(ReceivedBy(a)) + if Interrupted(a) then OwnEnd(roleDisplay, a.race) else []
  }

  function StatusOf(a: Attempt): string {
    var received := ReceivedBy(a);
    if Interrupted(a) then (if a.race.CancelledAfter? then "ABORTED" else TIMEOUT_STATUS)
    else if EndsDone(received) then StatusText(received[|received| - 1].status)
    else "UNKNOWN"
  }

  function SummaryOf(a: Attempt): Option<string> {
    var received := ReceivedBy(a);
    if Interrupted(a) then (if a.race.CancelledAfter? then Some(CANCEL_SUMMARY) else None)
    else if EndsDone(received) then Some(SummaryText(received[|received| - 1].summary))
    else None
  }

  function OutcomeOfAttempt(roleId: string, roleDisplay: string, a: Attempt): TaskOutcome {
    TaskOutcome(roleId, roleDisplay, StatusOf(a), SummaryOf(a), AllText(ReceivedBy(a)))
  }

  // ---------------------------------------------------------------- the receive loop

  lemma {:induction false} UntilDoneAt(events: seq<Event>, k: nat)
    requires k <= |events| && forall j :: 0 <= j < k ==> !events[j].Done?
    ensures k <= |UntilDone(events)| && UntilDone(events)[..k] == events[..k]
    ensures k < |events| && events[k].Done? ==> UntilDone(events) == events[..k + 1]
    ensures k < |events| ==> k < |UntilDone(events)|
    ensures k == |events| ==> UntilDone(events) == events
  {
    if k > 0 {
      UntilDoneAt(events[1..], k - 1);
      assert events == [events[0]] + events[1..];
      assert forall n :: 1 <= n <= |events| ==> events[..n] == [events[0]] + events[1..][..n - 1];
    }
  }

  /** The loop has received the first `k` events, none of them a done event, and nothing interrupted it. */
  ghost predicate Receiving(a: Attempt, k: nat, text: string, sent: seq<Signal>) {
    && k <= |a.events|
    && (forall j :: 0 <= j < k ==> !a.events[j].Done?)
    && (a.race.NoInterruption? || k <= a.race.received)
    && text == AllText(a.events[..k])
    && sent == AllForwarded(a.events[..k])
  }

  /** One more event is received. */
  lemma ReceivesOneMore(a: Attempt, k: nat, text: string, sent: seq<Signal>)
    requires Receiving(a, k, text, sent) && k < |a.events|
    ensures AllForwarded(a.events[..k + 1]) == sent + [Forwarded(a.events[k])]
    ensures AllText(a.events[..k + 1])
      == text + match a.events[k] case TextDelta(delta) => delta case _ => ""
  {
    assert a.events[..k + 1][..k] == a.events[..k];
  }

  /** How the loop ends before event `k`: interrupted, or because the channel is closed. */
  lemma EndsBefore(a: Attempt, k: nat, text: string, sent: seq<Signal>)
    requires Receiving(a, k, text, sent)
    requires k == |a.events| || a.race == CancelledAfter(k) || a.race == TimedOutAfter(k)
    ensures ReceivedBy(a) == a.events[..k] && !EndsDone(ReceivedBy(a))
    ensures Interrupted(a) <==> a.race == CancelledAfter(k) || a.race == TimedOutAfter(k)
  {
    UntilDoneAt(a.events, k);
    assert a.events[..|a.events|] == a.events;
  }

  /** How the loop ends with event `k`: it is the done event. */
  lemma EndsWithDone(a: Attempt, k: nat, text: string, sent: seq<Signal>)
    requires Receiving(a, k, text, sent) && k < |a.events| && a.events[k].Done?
    requires a.race != CancelledAfter(k) && a.race != TimedOutAfter(k)
    ensures !Interrupted(a) && ReceivedBy(a) == a.events[..k + 1]
  {
    UntilDoneAt(a.events, k);
  }

  /** The receive loop: it leaves with the done event, or before event `received` because it is cut short. */
  method Receive(a: Attempt)
    returns (done: Option<Event>, text: string, sent: seq<Signal>, received: nat)
    ensures received <= |a.events|
    ensures text == AllText(a.events[..received]) && sent == AllForwarded(a.events[..received])
    ensures done.Some? ==>
      received > 0 && done.value == a.events[received - 1] && done.value.Done?
      && !Interrupted(a) && ReceivedBy(a) == a.events[..received]
    ensures done.None? ==>
      && Receiving(a, received, text, sent)
      && (received == |a.events| || a.race == CancelledAfter(received) || a.race == TimedOutAfter(received))
  {
    done, text, sent, received := None, "", [], 0;
    while received < |a.events| && a.race != CancelledAfter(received) && a.race != TimedOutAfter(received)
      invariant Receiving(a, received, text, sent)
    {
      ReceivesOneMore(a, received, text, sent);
      var event := a.events[received];
      sent := sent + [Forwarded(event)];
      match event {
        case TextDelta(delta) => text := text + delta;
        case Done(status, _) =>
          EveryStatusIsTerminal(status);
          if IsTerminal(StatusText(status)) {
            EndsWithDone(a, received, text, sent[..received]);
            return Some(event), text, sent, received + 1;
          }
        case _ =>
      }
      received := received + 1;
    }
  }

  method DriveSingleAgent(roleId: string, roleDisplay: string, a: Attempt)
    returns (outcome: TaskOutcome, sent: seq<Signal>)
    ensures outcome == OutcomeOfAttempt(roleId, roleDisplay, a)
    ensures sent == SentDuring(roleDisplay, a)
  {
    var done, text, received;
    done, text, sent, received := Receive(a);
    var status, summary;
    match done {
      case Some(Done(s, m)) =>
        status, summary := StatusText(s), Some(SummaryText(m));
      case _ =>
        EndsBefore(a, received, text, sent);
        var end;
        status, summary, end := Conclude(roleDisplay, a.race, received, "UNKNOWN");
        sent := sent + end;
    }
    outcome := TaskOutcome(roleId, roleDisplay, status, summary, text);
  }

  /** Behind the loop: a cancellation or a timeout is reported under the workflow's id. */
  method Conclude(roleDisplay: string, race: Race, k: nat, lastStatus: string)
    returns (status: string, summary: Option<string>, end: seq<Signal>)
    ensures race == CancelledAfter(k) ==> status == "ABORTED" && summary == Some(CANCEL_SUMMARY)
    ensures race == TimedOutAfter(k) ==> status == TIMEOUT_STATUS && summary == None
    ensures race == CancelledAfter(k) || race == TimedOutAfter(k) ==> end == OwnEnd(roleDisplay, race)
    ensures race != CancelledAfter(k) && race != TimedOutAfter(k) ==>
      status == lastStatus && summary == None && end == []
  {
    status, summary, end := lastStatus, None, [];
    if race == CancelledAfter(k) {
      end := [AgentDone("ABORTED", CANCEL_SUMMARY)];
      status, summary := "ABORTED", Some(CANCEL_SUMMARY);
    } else if race == TimedOutAfter(k) {
      end := [AgentDone(TIMEOUT_STATUS, "agent " + roleDisplay + " exceeded 300s")];
      status := TIMEOUT_STATUS;
    }
  }

  // ---------------------------------------------------------------- what an attempt guarantees

  function AgentDoneCount(signals: seq<Signal>): nat {
    if signals == [] then 0
    else AgentDoneCount(signals[..|signals| - 1]) + if signals[|signals| - 1].AgentDone? then 1 else 0
  }

  lemma {:induction false} AgentDoneConcat(a: seq<Signal>, b: seq<Signal>)
    ensures AgentDoneCount(a + b) == AgentDoneCount(a) + AgentDoneCount(b)
  {
    if b == [] {
      assert a + b == a;
    } else {
      assert (a + b)[..|a + b| - 1] == a + b[..|b| - 1];
      AgentDoneConcat(a, b[..|b| - 1]);
    }
  }

  lemma {:induction false} ForwardedAreNone(events: seq<Event>)
    ensures AgentDoneCount(AllForwarded(events)) == 0
  {
    if events != [] {
      var front := events[..|events| - 1];
      ForwardedAreNone(front);
      assert AllForwarded(events)[..|events| - 1] == AllForwarded(front);
    }
  }

  lemma OwnEndCount(roleDisplay: string, a: Attempt)
    ensures AgentDoneCount(SentDuring(roleDisplay, a)) == if Interrupted(a) then 1 else 0
  {
    var forwarded := AllForwarded(ReceivedBy(a));
    ForwardedAreNone(ReceivedBy(a));
    if Interrupted(a) {
      OneAgentDone(OwnEnd(roleDisplay, a.race));
      AgentDoneConcat(forwarded, OwnEnd(roleDisplay, a.race));
    } else {
      assert forwarded + [] == forwarded;
    }
  }

  lemma OneAgentDone(end: seq<Signal>)
    requires |end| == 1 && end[0].AgentDone?
    ensures AgentDoneCount(end) == 1
  {
    assert end[..0] == [];
  }

  /**
   * The orchestrator sends a done event of its own iff the attempt is interrupted: once, behind
   * everything forwarded, and with the status of the outcome.
   */
  lemma OwnEndIffInterrupted(roleId: string, roleDisplay: string, a: Attempt)
    ensures var sent, status := SentDuring(roleDisplay, a), OutcomeOfAttempt(roleId, roleDisplay, a).status;
      && AgentDoneCount(sent) == (if Interrupted(a) then 1 else 0)
      && (Interrupted(a) ==> sent[|sent| - 1].AgentDone? && sent[|sent| - 1].status == status)
      && (Interrupted(a) && a.race.CancelledAfter? ==>
            SummaryOf(a) == Some("workflow cancelled by user") == Some(sent[|sent| - 1].summary))
      && (Interrupted(a) && a.race.TimedOutAfter? ==>
            SummaryOf(a) == None && sent[|sent| - 1].summary == "agent " + roleDisplay + " exceeded 300s")
      && (Interrupted(a) ==> status == if a.race.CancelledAfter? then "ABORTED" else TIMEOUT_STATUS)
  {
    OwnEndCount(roleDisplay, a);
  }

  /** The statuses an attempt can end with. */
  ghost predicate IsAttemptStatus(s: string) {
    (exists status :: s == StatusText(status)) || s == "ABORTED" || s == TIMEOUT_STATUS || s == "UNKNOWN"
  }

  lemma AttemptStatuses(a: Attempt)
    ensures IsAttemptStatus(StatusOf(a))
  {
  }

  /**
   * An agent's run that nothing interrupts is forwarded whole, and its outcome has the status, the
   * summary and the text of the run.
   */
  lemma WholeRunIsReceived(
    roleId: string, roleDisplay: string,
    cfg: Config, world: World, first: Context.History, turns: seq<Turn>, events: seq<Event>, requests: seq<Context.History>)
    requires RunSends(cfg, world, first, turns, events, requests)
    ensures var a := Attempt(events, NoInterruption);
      && SentDuring(roleDisplay, a) == AllForwarded(events)
      && EndEvent(cfg, turns).Done?
      && OutcomeOfAttempt(roleId, roleDisplay, a) == TaskOutcome(
           roleId, roleDisplay, StatusText(EndEvent(cfg, turns).status),
           Some(SummaryText(EndEvent(cfg, turns).summary)), AllText(events))
  {
    AgentTheorems.OneDoneAndLast(cfg, world, first, turns);
    assert events[|events| - 1] == EndEvent(cfg, turns);
    WholeIsReceived(roleId, roleDisplay, events);
  }

  lemma ReceivesAll(events: seq<Event>)
    requires EndsDone(events) && forall k :: 0 <= k < |events| - 1 ==> !events[k].Done?
    ensures var a := Attempt(events, NoInterruption); !Interrupted(a) && ReceivedBy(a) == events
  {
    UntilDoneAt(events, |events| - 1);
    assert events[..|events|] == events;
  }

  lemma WholeIsReceived(roleId: string, roleDisplay: string, events: seq<Event>)
    requires EndsDone(events) && forall k :: 0 <= k < |events| - 1 ==> !events[k].Done?
    ensures var a, last := Attempt(events, NoInterruption), events[|events| - 1];
      && SentDuring(roleDisplay, a) == AllForwarded(events)
      && OutcomeOfAttempt(roleId, roleDisplay, a) == TaskOutcome(
           roleId, roleDisplay, StatusText(last.status), Some(SummaryText(last.summary)), AllText(events))
  {
    ReceivesAll(events);
    ReceivedOutcome(roleId, roleDisplay, Attempt(events, NoInterruption), events);
  }

  lemma ReceivedOutcome(roleId: string, roleDisplay: string, a: Attempt, events: seq<Event>)
    requires !Interrupted(a) && ReceivedBy(a) == events && EndsDone(events)
    ensures SentDuring(roleDisplay, a) == AllForwarded(events)
    ensures OutcomeOfAttempt(roleId, roleDisplay, a) == TaskOutcome(
      roleId, roleDisplay, StatusText(events[|events| - 1].status),
      Some(SummaryText(events[|events| - 1].summary)), AllText(events))
  {
    assert AllForwarded(events) + [] == AllForwarded(events);
  }
}
