/** The promises of the delivery protocol, over every run of every number of workers. */
module Guarantees {
  import opened Wrappers
  import opened Records
  import opened Validation
  import opened Returns
  import opened Transactions
  import opened Invariant
  import opened Evolution
  import opened System
  import opened Protocol

  // Bounded, unrepeated, explained dispatch

  /** The provider said, in a well-formed response, that it may be asked again. */
  predicate SaidTryAgain(i: Invocation) {
    AsksAgain(i.result, i.instance)
  }

  predicate Accepting(i: Invocation) {
    Accepts(i.result, i.instance)
  }

  predicate Refusing(i: Invocation) {
    Refuses(i.result, i.instance)
  }

  /** When the call was answered, as far as the worker can tell. */
  function At(i: Invocation): Time {
    AnsweredAt(i.result, i.instance, i.since)
  }

  /** The pause that the provider asked for. */
  function Pause(i: Invocation): Option<int> {
    PauseOf(i.result, i.instance)
  }

  lemma OutcomeIs(i: Invocation)
    ensures var p := Outcome(i);
            && p.observedAt == At(i)
            && (p.outcome == ProviderAccepted <==> Accepting(i))
            && (p.outcome == TemporaryFailure <==> SaidTryAgain(i))
            && (p.outcome == PermanentFailure <==> Refusing(i))
            && p.remoteReceipt == ReceiptIn(i.result, i.instance)
            && (Accepting(i) ==> p.failure.None?)
            && (!Accepting(i) ==> p.failure.Some?)
            && (p.failure.Some? ==>
                  && Some(p.failure.value.code) == CodeOf(i.result, i.instance)
                  && p.failure.value.classification == OutcomeName(p.outcome)
                  && p.failure.value.retryAfter == Pause(i))
  {
    hide Observe;
    ReturnIsRecorded(i.request, i.instance, i.since, i.result);
  }

  lemma PauseIsShort(i: Invocation)
    ensures Pause(i).Some? ==> Pause(i).value <= LONGEST_PAUSE
  {
  }

  /** The outcome of every call but the last is a temporary failure, committed to the ledger. */
  lemma EarlierFailedTemporarily(hash: IntentId -> DeliveryId, y: World, id: DeliveryId, n: nat)
    requires WorldInv(hash, y) && id in y.ledger.deliveries && n < |Invocations(y.log, id)| - 1
    ensures Outcome(Invocations(y.log, id)[n]).outcome == TemporaryFailure
    ensures exists e | e in y.ledger.events ::
              y.ledger.events[e].digest.payload == Dispatch(Outcome(Invocations(y.log, id)[n]))
  {
    hide Outcome, Catalogue, RowInv, SlotInv, ReceiptInv, RetryInv, ScheduleInv, CountInv;
    hide WorkerInv, Separate;
    var d := y.ledger.deliveries[id];
    assert DeliveryInv(y.ledger, id);
    assert LogInv(y.log, id, d.attemptCount);
    assert FailedTemporarily(y.ledger.events, AttemptId(id, n + 1));
    var e :| e in y.ledger.events
             && IsTemporaryFailure(y.ledger.events[e].digest.payload, AttemptId(id, n + 1));
    assert Reported(y.log, y.ledger.events[e].digest.payload.dispatch);
  }

  lemma OutcomeSaysTryAgain(i: Invocation)
    requires Outcome(i).outcome == TemporaryFailure
    ensures SaidTryAgain(i)
  {
    ReturnIsRecorded(i.request, i.instance, i.since, i.result);
  }

  /** In every run a delivery is sent at most `Cap` times, once for each of its attempts, in
      order; and every call but the last was answered by a well-formed temporary failure, so
      nothing ambiguous, malformed, failed or abandoned is ever sent again. */
  lemma DispatchIsBounded(hash: IntentId -> DeliveryId, trace: seq<World>, t: nat, id: DeliveryId)
    requires Run(hash, trace) && t < |trace|
    ensures var sent := Invocations(trace[t].log, id);
            && (forall n | 0 <= n < |sent| :: sent[n].request.attempt == AttemptId(id, n + 1))
            && (forall n | 0 <= n < |sent| - 1 :: SaidTryAgain(sent[n]))
            && (sent != [] ==> id in trace[t].ledger.deliveries
                               && |sent| <= Cap(trace[t].ledger.deliveries[id]))
  {
    hide Run, SaidTryAgain, Outcome;
    var y := trace[t];
    RunKeepsWorldInv(hash, trace, t);
    if id in y.ledger.deliveries {
      var sent := Invocations(y.log, id);
      assert DeliveryInv(y.ledger, id);
      assert LogInv(y.log, id, y.ledger.deliveries[id].attemptCount);
      forall n | 0 <= n < |sent| - 1 ensures SaidTryAgain(sent[n]) {
        EarlierFailedTemporarily(hash, y, id, n);
        OutcomeSaysTryAgain(sent[n]);
      }
    }
  }

  /** The call at position `n` of the log is the one its delivery's attempts place there. */
  lemma {:induction false} CallHasItsPlace(log: seq<Invocation>, n: nat)
    requires n < |log|
    ensures var id := log[n].request.delivery;
            var place := |Invocations(log[..n], id)|;
            place < |Invocations(log, id)| && Invocations(log, id)[place] == log[n]
  {
    var id := log[n].request.delivery;
    if n == |log| - 1 {
    } else {
      var shorter := log[..|log| - 1];
      assert shorter[..n] == log[..n];
      CallHasItsPlace(shorter, n);
    }
  }

  lemma {:induction false} PlacesGrow(log: seq<Invocation>, m: nat, n: nat, id: DeliveryId)
    requires m <= n <= |log|
    ensures |Invocations(log[..m], id)| <= |Invocations(log[..n], id)|
    decreases n
  {
    if m == n {
    } else {
      assert log[..n][..n - 1] == log[..n - 1];
      PlacesGrow(log, m, n - 1, id);
    }
  }

  /** No two provider calls of a run carry the same attempt. */
  lemma NoAttemptIsSentTwice(hash: IntentId -> DeliveryId, trace: seq<World>, t: nat, m: nat, n: nat)
    requires Run(hash, trace) && t < |trace| && m < n < |trace[t].log|
    ensures trace[t].log[m].request.attempt != trace[t].log[n].request.attempt
  {
    hide Run;
    var log := trace[t].log;
    var id, id' := log[m].request.delivery, log[n].request.delivery;
    DispatchIsBounded(hash, trace, t, id);
    DispatchIsBounded(hash, trace, t, id');
    CallHasItsPlace(log, m);
    CallHasItsPlace(log, n);
    if id == id' {
      assert log[..m + 1][..m] == log[..m];
      PlacesGrow(log, m + 1, n, id);
    }
  }

  // Forward motion over runs

  lemma StepOfClaim(
    hash: IntentId -> DeliveryId, y: World, w: nat, keyReference: string, now: Time,
    locked: set<DeliveryId>, y': World)
    requires Next(hash, y, Claims(w, keyReference, now, locked), y')
    ensures Step(hash, y.ledger, ClaimDue(keyReference, now, locked), y'.ledger)
  {
    hide ClaimsDue;
  }

  lemma StayAdvances(s: Tables)
    ensures Advances(s, s)
  {
  }

  lemma FollowsAdvances(hash: IntentId -> DeliveryId, y: World, y': World)
    requires WorldInv(hash, y) && Follows(hash, y, y')
    ensures Advances(y.ledger, y'.ledger)
    ensures y'.log == y.log || exists i :: y'.log == y.log + [i]
  {
    hide Step, Advances, ClaimsDue, ClaimAnswer, Inv, LogInv, EventInv, WorkerInv, Separate, After;
    var event :| Next(hash, y, event, y');
    match event
    case Claims(w, keyReference, now, locked) =>
      assert Step(hash, y.ledger, ClaimDue(keyReference, now, locked), y'.ledger) by {
        StepOfClaim(hash, y, w, keyReference, now, locked, y');
      }
      StepAdvances(hash, y.ledger, ClaimDue(keyReference, now, locked), y'.ledger);
    case Reports(w) =>
      StepAdvances(hash, y.ledger, ObserveEvent(Report(y.workers[w].invocation)), y'.ledger);
    case Acts(action) => StepAdvances(hash, y.ledger, action, y'.ledger);
    case Invokes(w, _, _) => StayAdvances(y.ledger);
    case Stops(w) => StayAdvances(y.ledger);
  }

  lemma AdvancesAppends(s: Tables, s': Tables)
    requires Advances(s, s')
    ensures AppendOnly(s, s')
  {
  }

  /** Over any stretch of a run, rows are only added, evidence stays as written, and deliveries
      only move forward; a delivery that is terminal keeps its row unchanged. */
  lemma {:induction false} RunIsAppendOnly(hash: IntentId -> DeliveryId, trace: seq<World>, i: nat, j: nat)
    requires Run(hash, trace) && i <= j < |trace|
    ensures AppendOnly(trace[i].ledger, trace[j].ledger)
    ensures trace[i].log <= trace[j].log
    decreases j - i
  {
    hide Advances, WorldInv, AppendOnly, Next, Start;
    if i == j {
      StayAdvances(trace[i].ledger);
      AdvancesAppends(trace[i].ledger, trace[i].ledger);
    } else {
      RunIsAppendOnly(hash, trace, i, j - 1);
      RunKeepsWorldInv(hash, trace, j - 1);
      assert Follows(hash, trace[j - 1], trace[j - 1 + 1]);
      FollowsAdvances(hash, trace[j - 1], trace[j]);
      AdvancesAppends(trace[j - 1].ledger, trace[j].ledger);
      AppendOnlyComposes(trace[i].ledger, trace[j - 1].ledger, trace[j].ledger);
    }
  }

  /** How often the delivery's status changes along the trace. */
  ghost function StatusChanges(trace: seq<World>, id: DeliveryId): nat {
    if |trace| < 2 then
      0
    else
      var before, after := trace[|trace| - 2].ledger, trace[|trace| - 1].ledger;
      StatusChanges(trace[..|trace| - 1], id)
      + if id in before.deliveries && id in after.deliveries
           && before.deliveries[id].status != after.deliveries[id].status then 1 else 0
  }

  lemma RankIsBounded(hash: IntentId -> DeliveryId, y: World, id: DeliveryId)
    requires WorldInv(hash, y)
    ensures id in y.ledger.deliveries ==> 0 <= Rank(y.ledger.deliveries[id]) <= 9
  {
    if id in y.ledger.deliveries {
      assert DeliveryInv(y.ledger, id);
    }
  }

  lemma AdvancesMoves(s: Tables, s': Tables, id: DeliveryId)
    requires Advances(s, s') && id in s.deliveries
    ensures id in s'.deliveries && Progress(s.deliveries[id], s'.deliveries[id])
  {
  }

  lemma {:induction false} ChangesSpendRank(hash: IntentId -> DeliveryId, trace: seq<World>, id: DeliveryId)
    requires Run(hash, trace)
    ensures var s := trace[|trace| - 1].ledger;
            if id in s.deliveries then
              0 <= Rank(s.deliveries[id]) <= 9 - StatusChanges(trace, id)
            else
              StatusChanges(trace, id) == 0
  {
    hide WorldInv, Next, Start, Advances;
    var last := |trace| - 1;
    RunKeepsWorldInv(hash, trace, last);
    RankIsBounded(hash, trace[last], id);
    if last >= 1 {
      var shorter := trace[..last];
      assert Run(hash, shorter) by {
        assert forall i | 0 <= i < |shorter| - 1 :: Follows(hash, trace[i], trace[i + 1]);
      }
      ChangesSpendRank(hash, shorter, id);
      RunKeepsWorldInv(hash, trace, last - 1);
      assert Follows(hash, trace[last - 1], trace[last - 1 + 1]);
      FollowsAdvances(hash, trace[last - 1], trace[last]);
      if id in trace[last - 1].ledger.deliveries {
        AdvancesMoves(trace[last - 1].ledger, trace[last].ledger, id);
      }
    }
  }

  /** A delivery changes status at most nine times, whatever runs and however often an operator
      asks for a retry. */
  lemma AtMostNineStatusChanges(hash: IntentId -> DeliveryId, trace: seq<World>, id: DeliveryId)
    requires Run(hash, trace)
    ensures StatusChanges(trace, id) <= 9
  {
    hide Run;
    ChangesSpendRank(hash, trace, id);
  }

  // Cancellation over runs

  lemma {:induction false} InvocationsPrefix(log: seq<Invocation>, log': seq<Invocation>, id: DeliveryId)
    requires log <= log'
    ensures Invocations(log, id) <= Invocations(log', id)
    decreases |log'|
  {
    if log != log' {
      InvocationsPrefix(log, log'[..|log'| - 1], id);
    } else {
      assert Invocations(log, id) <= Invocations(log', id);
    }
  }

  lemma TerminalStays(s: Tables, s': Tables, id: DeliveryId)
    requires AppendOnly(s, s') && id in s.deliveries && Terminal(s.deliveries[id].status)
    ensures id in s'.deliveries && s'.deliveries[id] == s.deliveries[id]
  {
  }

  lemma SentIsCounted(hash: IntentId -> DeliveryId, y: World, id: DeliveryId)
    requires WorldInv(hash, y) && id in y.ledger.deliveries
    ensures |Invocations(y.log, id)| <= y.ledger.deliveries[id].attemptCount
  {
    assert LogInv(y.log, id, y.ledger.deliveries[id].attemptCount);
  }

  lemma CountStays(hash: IntentId -> DeliveryId, y: World, y': World, id: DeliveryId)
    requires WorldInv(hash, y) && WorldInv(hash, y')
    requires y'.ledger.attempts.Keys == y.ledger.attempts.Keys
    requires id in y.ledger.deliveries && id in y'.ledger.deliveries
    ensures y'.ledger.deliveries[id].attemptCount == y.ledger.deliveries[id].attemptCount
  {
    CountFollowsAttempts(hash, y.ledger, y'.ledger, id);
  }

  lemma ClaimLeavesOthers(
    s: Tables, keyReference: string, now: Time, locked: set<DeliveryId>, s': Tables, id: DeliveryId)
    requires exists answer :: ClaimsDue(s, keyReference, now, locked, answer) && s' == After(s, answer)
    requires id in s.deliveries && id in s'.deliveries && s'.deliveries[id].status == Failed
    ensures s'.deliveries[id] == s.deliveries[id]
  {
    if s' != s {
      var picked, request := PickedClaim(s, keyReference, now, locked, s');
    }
  }

  /** The step that ends a waiting delivery makes no attempt. */
  lemma FailedKeepsCount(hash: IntentId -> DeliveryId, trace: seq<World>, i: nat, id: DeliveryId)
    requires Run(hash, trace) && i + 1 < |trace|
    requires WorldInv(hash, trace[i]) && WorldInv(hash, trace[i + 1])
    requires id in trace[i].ledger.deliveries && id in trace[i + 1].ledger.deliveries
    requires trace[i + 1].ledger.deliveries[id].status == Failed
    requires Waiting(trace[i].ledger.deliveries[id].status)
    ensures trace[i + 1].ledger.deliveries[id].attemptCount == trace[i].ledger.deliveries[id].attemptCount
  {
    hide WorldInv, Inv, Step;
    var y, y' := trace[i], trace[i + 1];
    assert Follows(hash, trace[i], trace[i + 1]);
    var event :| Next(hash, y, event, y');
    match event
    case Claims(w, keyReference, now, locked) => ClaimLeavesOthers(y.ledger, keyReference, now, locked, y'.ledger, id);
    case Reports(w) =>
      OtherStepFrame(hash, y.ledger, ObserveEvent(Report(y.workers[w].invocation)), y'.ledger);
      CountStays(hash, y, y', id);
    case Acts(action) =>
      OtherStepFrame(hash, y.ledger, action, y'.ledger);
      CountStays(hash, y, y', id);
    case Invokes(_, _, _) =>
    case Stops(_) =>
  }

  /** A delivery that goes from waiting to terminal was cancelled: from then on its row is fixed,
      it gains no attempt, and the provider is never called for it again. */
  lemma CancelledStaysQuiet(hash: IntentId -> DeliveryId, trace: seq<World>, i: nat, j: nat, id: DeliveryId)
    requires Run(hash, trace) && i + 1 <= j < |trace|
    requires id in trace[i].ledger.deliveries && Waiting(trace[i].ledger.deliveries[id].status)
    requires id in trace[i + 1].ledger.deliveries
    requires trace[i + 1].ledger.deliveries[id].status == Failed
    ensures id in trace[j].ledger.deliveries
    ensures trace[j].ledger.deliveries[id] == trace[i + 1].ledger.deliveries[id]
    ensures Invocations(trace[j].log, id) == Invocations(trace[i].log, id)
  {
    hide Run, WorldInv, AppendOnly;
    RunIsAppendOnly(hash, trace, i + 1, j);
    TerminalStays(trace[i + 1].ledger, trace[j].ledger, id);
    RunIsAppendOnly(hash, trace, i, j);
    RunKeepsWorldInv(hash, trace, i);
    RunKeepsWorldInv(hash, trace, i + 1);
    RunKeepsWorldInv(hash, trace, j);
    ClaimableIsReported(hash, trace[i], id);
    FailedKeepsCount(hash, trace, i, id);
    InvocationsPrefix(trace[i].log, trace[j].log, id);
    SentIsCounted(hash, trace[j], id);
  }
}
