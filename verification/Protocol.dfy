/** What holds of every world of every run of the worker protocol. */
module Protocol {
  import opened Wrappers
  import opened Records
  import opened Validation
  import opened Transactions
  import opened Invariant
  import opened Preservation
  import opened Evolution
  import opened System

  // What one ledger step may do to attempts and consumed events

  ghost predicate ConsumesAtMost(s: Tables, s': Tables, e: Envelope) {
    || s'.events == s.events
    || exists at :: s'.events == s.events[e.id := ConsumedEvent(Digest(e), at)]
  }

  lemma DispatchFrame(s: Tables, e: Envelope, p: DispatchObserved, s': Tables)
    requires ApplyDispatch(s, e, p) == Success(s')
    ensures s'.attempts.Keys == s.attempts.Keys && ConsumesAtMost(s, s', e)
  {
    hide ObservedRow, Observed, Absorbed, EvidenceClashes, AcceptanceKey, AcceptanceReceipt;
    hide AutomaticDecision, HasReceipt;
    assert s'.events == s.events || s'.events == s.events[e.id := ConsumedEvent(Digest(e), p.observedAt)];
  }

  lemma ReceiptFrame(s: Tables, e: Envelope, p: ReceiptObserved, s': Tables)
    requires ApplyReceipt(s, e, p) == Success(s')
    ensures s'.attempts.Keys == s.attempts.Keys && ConsumesAtMost(s, s', e)
  {
    hide Concluded, Confirmed;
    assert s'.events == s.events || s'.events == s.events[e.id := ConsumedEvent(Digest(e), p.observedAt)];
  }

  lemma LifecycleFrame(s: Tables, e: Envelope, p: LifecycleObserved, s': Tables)
    requires ApplyLifecycle(s, e, p) == Success(s')
    ensures s'.attempts.Keys == s.attempts.Keys && ConsumesAtMost(s, s', e)
  {
    hide Cancelled, CancelledBy;
    assert s'.events == s.events || s'.events == s.events[e.id := ConsumedEvent(Digest(e), p.observedAt)];
  }

  lemma ApplyFrame(s: Tables, e: Envelope, s': Tables)
    requires Apply(s, e) == Success(s')
    ensures s'.attempts.Keys == s.attempts.Keys && ConsumesAtMost(s, s', e)
  {
    hide ApplyDispatch, ApplyReceipt, ConsumesAtMost;
    match e.payload
    case Dispatch(p) => DispatchFrame(s, e, p, s');
    case Authoritative(p) => ReceiptFrame(s, e, p, s');
    case Invitation(p) => LifecycleFrame(s, e, p, s');
  }

  /** Only a claim adds an attempt, and only an observation consumes an event. */
  lemma OtherStepFrame(hash: IntentId -> DeliveryId, s: Tables, action: Action, s': Tables)
    requires Step(hash, s, action, s') && !action.ClaimDue?
    ensures s'.attempts.Keys == s.attempts.Keys
    ensures if action.ObserveEvent? then ConsumesAtMost(s, s', action.envelope) else s'.events == s.events
  {
    hide Apply;
    if action.ObserveEvent? && Apply(s, action.envelope).Success? {
      ApplyFrame(s, action.envelope, s');
    }
  }

  lemma CountFollowsAttempts(hash: IntentId -> DeliveryId, s: Tables, s': Tables, id: DeliveryId)
    requires Inv(hash, s) && Inv(hash, s') && s'.attempts.Keys == s.attempts.Keys
    requires id in s'.deliveries
    ensures s'.deliveries[id].attemptCount ==
            if id in s.deliveries then s.deliveries[id].attemptCount else 0
  {
    var count' := s'.deliveries[id].attemptCount;
    assert DeliveryInv(s', id);
    assert 1 <= count' ==> AttemptId(id, count') in s'.attempts;
    if id in s.deliveries {
      var count := s.deliveries[id].attemptCount;
      assert DeliveryInv(s, id);
      assert 1 <= count ==> AttemptId(id, count) in s.attempts;
      assert AttemptId(id, count + 1) !in s.attempts;
      assert AttemptId(id, count' + 1) !in s'.attempts;
    }
  }

  lemma EventsStayReported(
    log: seq<Invocation>, s: Tables, s': Tables, e: Envelope)
    requires EventInv(log, s.events) && ConsumesAtMost(s, s', e)
    requires e.payload.Dispatch? ==> Reported(log, e.payload.dispatch)
    ensures EventInv(log, s'.events)
  {
  }

  lemma NothingSent(log: seq<Invocation>, id: DeliveryId)
    ensures Invocations(log, id) == [] ==> LogInv(log, id, 0)
  {
  }

  lemma LedgerStepKeepsWorld(
    hash: IntentId -> DeliveryId, y: World, action: Action, ledger: Tables)
    requires WorldInv(hash, y) && Step(hash, y.ledger, action, ledger) && !action.ClaimDue?
    requires action.ObserveEvent? && action.envelope.payload.Dispatch? ==>
               Reported(y.log, action.envelope.payload.dispatch)
    ensures WorldInv(hash, y.(ledger := ledger))
  {
    hide Inv, Step, LogInv, Separate, EventInv;
    StepKeepsInv(hash, y.ledger, action, ledger);
    StepAdvances(hash, y.ledger, action, ledger);
    OtherStepFrame(hash, y.ledger, action, ledger);
    forall id | id in ledger.deliveries
      ensures LogInv(y.log, id, ledger.deliveries[id].attemptCount)
    {
      CountFollowsAttempts(hash, y.ledger, ledger, id);
      NothingSent(y.log, id);
    }
    if action.ObserveEvent? {
      EventsStayReported(y.log, y.ledger, ledger, action.envelope);
    }
    forall w | 0 <= w < |y.workers| ensures WorkerInv(ledger, y.log, y.workers[w]) {
      assert WorkerInv(y.ledger, y.log, y.workers[w]);
    }
  }

  /** A worker that stops keeps nothing of its work. */
  lemma IdleKeepsWorld(hash: IntentId -> DeliveryId, y: World, w: nat)
    requires WorldInv(hash, y) && w < |y.workers|
    ensures WorldInv(hash, y.(workers := y.workers[w := Idle]))
  {
    hide Inv, LogInv, EventInv;
  }

  // Calling the provider

  /** A held attempt is the delivery's last and has not been sent. */
  lemma HeldIsNext(hash: IntentId -> DeliveryId, y: World, w: nat)
    requires WorldInv(hash, y) && w < |y.workers| && y.workers[w].Holding?
    ensures var q := y.workers[w].request;
            && q.delivery in y.ledger.deliveries
            && q.attempt == AttemptId(q.delivery, |Invocations(y.log, q.delivery)| + 1)
            && y.ledger.deliveries[q.delivery].attemptCount == |Invocations(y.log, q.delivery)| + 1
  {
    var q := y.workers[w].request;
    assert WorkerInv(y.ledger, y.log, y.workers[w]);
    assert q.attempt == AttemptId(q.delivery, q.attempt.sequence);
    assert DeliveryInv(y.ledger, q.delivery);
    assert LogInv(y.log, q.delivery, y.ledger.deliveries[q.delivery].attemptCount);
  }

  lemma ReportedStays(log: seq<Invocation>, i: Invocation, p: DispatchObserved)
    requires Reported(log, p)
    ensures Reported(log + [i], p)
  {
    hide Outcome;
    InvocationsAppend(log, i, p.attempt.delivery);
  }

  lemma OutcomeNamesAttempt(i: Invocation)
    ensures Outcome(i).attempt == i.request.attempt
  {
  }

  lemma EventsStayLogged(log: seq<Invocation>, i: Invocation, events: map<Key, ConsumedEvent>)
    requires EventInv(log, events)
    ensures EventInv(log + [i], events)
  {
    hide Outcome;
    forall e | e in events && events[e].digest.payload.Dispatch?
      ensures Reported(log + [i], events[e].digest.payload.dispatch)
    {
      ReportedStays(log, i, events[e].digest.payload.dispatch);
    }
  }

  lemma SentNext(y: World, w: nat, i: Invocation, id: DeliveryId)
    requires w < |y.workers| && y.workers[w].Holding? && y.workers[w].request == i.request
    requires WorkerInv(y.ledger, y.log, y.workers[w]) && ValidInstance(i.instance)
    requires i.request.attempt ==
             AttemptId(i.request.delivery, |Invocations(y.log, i.request.delivery)| + 1)
    requires i.request.delivery in y.ledger.deliveries
    requires y.ledger.deliveries[i.request.delivery].attemptCount ==
             |Invocations(y.log, i.request.delivery)| + 1
    requires id in y.ledger.deliveries
    requires LogInv(y.log, id, y.ledger.deliveries[id].attemptCount)
    ensures LogInv(y.log + [i], id, y.ledger.deliveries[id].attemptCount)
  {
    InvocationsAppend(y.log, i, id);
  }

  lemma InvokeKeepsWorkers(hash: IntentId -> DeliveryId, y: World, w: nat, i: Invocation)
    requires WorldInv(hash, y)
    requires w < |y.workers| && y.workers[w].Holding? && y.workers[w].request == i.request
    requires Outcome(i).attempt == i.request.attempt
    ensures var workers' := y.workers[w := Answered(i)];
            && Separate(workers')
            && forall v | 0 <= v < |workers'| :: WorkerInv(y.ledger, y.log + [i], workers'[v])
  {
    hide Inv, Observe, Outcome, EventInv, LogInv;
    var q := i.request;
    var workers' := y.workers[w := Answered(i)];
    HeldIsNext(hash, y, w);
    assert WorkerInv(y.ledger, y.log, y.workers[w]);
    InvocationsAppend(y.log, i, q.delivery);
    forall v | 0 <= v < |workers'| ensures WorkerInv(y.ledger, y.log + [i], workers'[v]) {
      assert WorkerInv(y.ledger, y.log, y.workers[v]);
      if v != w && y.workers[v].Holding? {
        HeldIsNext(hash, y, v);
        InvocationsAppend(y.log, i, y.workers[v].request.delivery);
        assert Busy(y.workers[v], y.workers[v].request.attempt) && Busy(y.workers[w], q.attempt);
        assert y.workers[v].request.attempt != q.attempt;
      } else if v != w && y.workers[v].Answered? {
        ReportedStays(y.log, i, Outcome(y.workers[v].invocation));
      }
    }
    forall u, v, attempt | 0 <= u < v < |workers'|
      ensures !(Busy(workers'[u], attempt) && Busy(workers'[v], attempt))
    {
      assert !(Busy(y.workers[u], attempt) && Busy(y.workers[v], attempt));
    }
  }

  lemma InvokeKeepsWorld(
    hash: IntentId -> DeliveryId, y: World, w: nat, instance: string, result: ProviderResult)
    requires WorldInv(hash, y)
    requires w < |y.workers| && y.workers[w].Holding? && ValidInstance(instance)
    ensures var i := Invocation(y.workers[w].request, instance, y.workers[w].since, result);
            WorldInv(hash, y.(workers := y.workers[w := Answered(i)], log := y.log + [i]))
  {
    hide Inv, LogInv, EventInv, Observe, Outcome, WorkerInv, Separate, ValidInstance, Reported;
    var i := Invocation(y.workers[w].request, instance, y.workers[w].since, result);
    HeldIsNext(hash, y, w);
    assert WorkerInv(y.ledger, y.log, y.workers[w]);
    OutcomeNamesAttempt(i);
    forall id ensures Invocations(y.log + [i], id) ==
                      Invocations(y.log, id) + if i.request.delivery == id then [i] else []
    {
      InvocationsAppend(y.log, i, id);
    }
    forall id | id in y.ledger.deliveries
      ensures LogInv(y.log + [i], id, y.ledger.deliveries[id].attemptCount)
    {
      SentNext(y, w, i, id);
    }
    EventsStayLogged(y.log, i, y.ledger.events);
    InvokeKeepsWorkers(hash, y, w, i);
  }

  // Claiming

  /** Whatever may be claimed has had all its attempts sent and reported. */
  lemma ClaimableIsReported(hash: IntentId -> DeliveryId, y: World, id: DeliveryId)
    requires WorldInv(hash, y)
    requires id in y.ledger.deliveries && Waiting(y.ledger.deliveries[id].status)
    ensures |Invocations(y.log, id)| == y.ledger.deliveries[id].attemptCount
  {
    hide Outcome, Catalogue, SlotInv, ReceiptInv, RetryInv, ScheduleInv, CountInv, WorkerInv, Separate;
    var count := y.ledger.deliveries[id].attemptCount;
    assert DeliveryInv(y.ledger, id);
    assert LogInv(y.log, id, count);
    if count >= 1 {
      assert FailedTemporarily(y.ledger.events, AttemptId(id, count));
      var e :| e in y.ledger.events
               && IsTemporaryFailure(y.ledger.events[e].digest.payload, AttemptId(id, count));
      assert Reported(y.log, y.ledger.events[e].digest.payload.dispatch);
    }
  }

  lemma ClaimKeepsWorld(
    hash: IntentId -> DeliveryId, y: World, w: nat, keyReference: string, now: Time,
    locked: set<DeliveryId>, id: DeliveryId, ledger: Tables, request: DispatchRequest)
    requires WorldInv(hash, y) && w < |y.workers| && y.workers[w].Idle?
    requires Due(y.ledger, id, now, locked)
    requires ClaimRow(y.ledger, keyReference, id, now) == Success((ledger, request))
    ensures WorldInv(hash, y.(ledger := ledger, workers := y.workers[w := Holding(request, now)]))
  {
    hide Inv, EventInv, Outcome;
    var workers' := y.workers[w := Holding(request, now)];
    ClaimKeepsInv(hash, y.ledger, keyReference, id, now, locked, ledger, request);
    ClaimableIsReported(hash, y, id);
    forall other | other in ledger.deliveries
      ensures LogInv(y.log, other, ledger.deliveries[other].attemptCount)
    {
      assert LogInv(y.log, other, y.ledger.deliveries[other].attemptCount);
    }
    forall v | 0 <= v < |workers'| ensures WorkerInv(ledger, y.log, workers'[v]) {
      assert WorkerInv(y.ledger, y.log, y.workers[v]);
    }
    assert Separate(workers') by {
      forall u, v, attempt | 0 <= u < v < |workers'|
        ensures !(Busy(workers'[u], attempt) && Busy(workers'[v], attempt))
      {
        assert !(Busy(y.workers[u], attempt) && Busy(y.workers[v], attempt));
        assert WorkerInv(y.ledger, y.log, y.workers[u]) && WorkerInv(y.ledger, y.log, y.workers[v]);
      }
    }
  }

  lemma AnsweredRow(
    s: Tables, keyReference: string, now: Time, locked: set<DeliveryId>,
    answer: Result<(Tables, Option<DispatchRequest>)>)
    returns (id: DeliveryId)
    requires ClaimsDue(s, keyReference, now, locked, answer)
    requires answer.Success? && answer.value.1.Some?
    ensures Due(s, id, now, locked)
    ensures ClaimRow(s, keyReference, id, now) == Success((answer.value.0, answer.value.1.value))
  {
    id :| FirstDue(s, id, now, locked) && answer == ClaimAnswer(s, keyReference, id, now);
  }

  lemma NoClaim(
    s: Tables, keyReference: string, now: Time, locked: set<DeliveryId>,
    answer: Result<(Tables, Option<DispatchRequest>)>)
    requires ClaimsDue(s, keyReference, now, locked, answer)
    requires answer.Failure? || answer.value.1.None?
    ensures After(s, answer) == s
  {
  }

  lemma ReportKeepsWorld(hash: IntentId -> DeliveryId, y: World, w: nat, ledger: Tables)
    requires WorldInv(hash, y) && w < |y.workers| && y.workers[w].Answered?
    requires Step(hash, y.ledger, ObserveEvent(Report(y.workers[w].invocation)), ledger)
    ensures WorldInv(hash, y.(ledger := ledger, workers := y.workers[w := Idle]))
  {
    hide Step, Inv, Observe;
    assert WorkerInv(y.ledger, y.log, y.workers[w]);
    LedgerStepKeepsWorld(hash, y, ObserveEvent(Report(y.workers[w].invocation)), ledger);
    IdleKeepsWorld(hash, y.(ledger := ledger), w);
  }

  lemma NextKeepsWorld(hash: IntentId -> DeliveryId, y: World, event: Event, y': World)
    requires WorldInv(hash, y) && Next(hash, y, event, y')
    ensures WorldInv(hash, y')
  {
    hide WorldInv, Step, ClaimsDue, ClaimRow, Due, Outcome;
    match event
    case Claims(w, keyReference, now, locked) =>
      var answer :| ClaimsDue(y.ledger, keyReference, now, locked, answer) && y' == Claimed(y, w, now, answer);
      if answer.Success? && answer.value.1.Some? {
        var id := AnsweredRow(y.ledger, keyReference, now, locked, answer);
        ClaimKeepsWorld(hash, y, w, keyReference, now, locked, id, y'.ledger, answer.value.1.value);
      } else {
        NoClaim(y.ledger, keyReference, now, locked, answer);
        assert y' == y;
      }
    case Invokes(w, instance, result) =>
      InvokeKeepsWorld(hash, y, w, instance, result);
    case Reports(w) =>
      ReportKeepsWorld(hash, y, w, y'.ledger);
    case Stops(w) =>
      IdleKeepsWorld(hash, y, w);
    case Acts(action) =>
      LedgerStepKeepsWorld(hash, y, action, y'.ledger);
  }

  lemma StartSatisfiesWorldInv(hash: IntentId -> DeliveryId, y: World)
    requires Start(hash, y)
    ensures WorldInv(hash, y)
  {
    hide Catalogue, ReceiptInv, HistoryInv, RetryInv, ScheduleInv, CountInv;
    forall id | id in y.ledger.deliveries
      ensures LogInv(y.log, id, y.ledger.deliveries[id].attemptCount)
    {
      var count := y.ledger.deliveries[id].attemptCount;
      assert DeliveryInv(y.ledger, id);
      assert 1 <= count ==> AttemptId(id, count) in y.ledger.attempts;
    }
  }

  /** Every world of every run satisfies the protocol's invariant. */
  lemma {:induction false} RunKeepsWorldInv(hash: IntentId -> DeliveryId, trace: seq<World>, i: nat)
    requires Run(hash, trace) && i < |trace|
    ensures WorldInv(hash, trace[i])
  {
    hide WorldInv, Next, Start;
    if i == 0 {
      StartSatisfiesWorldInv(hash, trace[0]);
    } else {
      RunKeepsWorldInv(hash, trace, i - 1);
      assert Follows(hash, trace[i - 1], trace[i - 1 + 1]);
      var event :| Next(hash, trace[i - 1], event, trace[i]);
      NextKeepsWorld(hash, trace[i - 1], event, trace[i]);
    }
  }
}
