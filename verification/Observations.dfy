/** Observations are applied exactly once, and commit under conditions that can be read off the
    ledger. */
module Observations {
  import opened Wrappers
  import opened Records
  import opened Validation
  import opened Returns
  import opened Transactions
  import opened Refusals
  import opened Invariant
  import opened Preservation
  import opened Evolution
  import opened System
  import opened Protocol
  import opened Guarantees

  // Exactly once

  predicate Consumed(s: Tables, e: Envelope) {
    e.id in s.events && s.events[e.id].digest == Digest(e)
  }

  lemma DispatchConsumes(s: Tables, e: Envelope, p: DispatchObserved, s': Tables)
    requires ApplyDispatch(s, e, p) == Success(s')
    ensures Consumed(s', e)
  {
    hide ObservedRow, Observed, Absorbed, EvidenceClashes, AcceptanceKey, AcceptanceReceipt;
    hide AutomaticDecision, HasReceipt;
  }

  lemma ReceiptConsumes(s: Tables, e: Envelope, p: ReceiptObserved, s': Tables)
    requires ApplyReceipt(s, e, p) == Success(s')
    ensures Consumed(s', e)
  {
    hide Concluded, Confirmed;
  }

  lemma LifecycleConsumes(s: Tables, e: Envelope, p: LifecycleObserved, s': Tables)
    requires ApplyLifecycle(s, e, p) == Success(s')
    ensures Consumed(s', e)
  {
    hide Cancelled, CancelledBy;
  }

  lemma CommittedIsConsumed(s: Tables, e: Envelope, s': Tables)
    requires Apply(s, e) == Success(s')
    ensures Consumed(s', e)
  {
    hide ApplyDispatch, ApplyReceipt, ApplyLifecycle, Consumed;
    match e.payload
    case Dispatch(p) => DispatchConsumes(s, e, p, s');
    case Authoritative(p) => ReceiptConsumes(s, e, p, s');
    case Invitation(p) => LifecycleConsumes(s, e, p, s');
  }

  predicate SameContent(e: Envelope, e': Envelope) {
    e'.version == e.version && e'.source == e.source && e'.payload == e.payload
  }

  lemma SameContract(e: Envelope, e': Envelope)
    requires SameContent(e, e')
    ensures ValidContract(e') <==> ValidContract(e)
  {
  }

  lemma Repeated(s: Tables, later: Tables, e: Envelope, e': Envelope)
    requires Apply(s, e).Success? && Consumed(later, e) && e'.id == e.id
    ensures SameContent(e, e') ==> Apply(later, e') == Success(later)
    ensures !SameContent(e, e') ==> Apply(later, e').Failure?
  {
    hide CommitOutcome, CommitVerdict, Cancelled, EvidenceClashes, Absorbed, ValidDispatchObservation;
    hide ValidReceipt, ValidContract, HasReceipt, Matched;
    assert Digest(e') == Digest(e) <==> SameContent(e, e');
    if SameContent(e, e') {
      SameContract(e, e');
    }
  }

  /** Once an observation has committed, another under its identity succeeds at a later point of
      any run exactly when it has the same version, source and payload, whenever it occurred, and
      then changes nothing. */
  lemma ObservedExactlyOnce(
    hash: IntentId -> DeliveryId, trace: seq<World>, i: nat, j: nat, e: Envelope, e': Envelope)
    requires Run(hash, trace) && i + 1 <= j < |trace|
    requires Apply(trace[i].ledger, e) == Success(trace[i + 1].ledger) && e'.id == e.id
    ensures var s, same := trace[j].ledger,
                e'.version == e.version && e'.source == e.source && e'.payload == e.payload;
            if same then Apply(s, e') == Success(s) else Apply(s, e').Failure?
  {
    hide Run;
    CommittedIsConsumed(trace[i].ledger, e, trace[i + 1].ledger);
    RunIsAppendOnly(hash, trace, i + 1, j);
    Repeated(trace[i].ledger, trace[j].ledger, e, e');
  }

  // When a worker's report commits

  lemma AttemptRuns(hash: IntentId -> DeliveryId, s: Tables, attempt: AttemptId)
    requires Inv(hash, s) && attempt in s.attempts
    ensures Matched(s, attempt.delivery, attempt) && s.attempts[attempt].run == RunId(attempt)
  {
    assert DeliveryInv(s, attempt.delivery);
    assert attempt == AttemptId(attempt.delivery, attempt.sequence);
  }

  lemma OutcomeFields(i: Invocation)
    ensures Outcome(i).delivery == i.request.delivery && Outcome(i).attempt == i.request.attempt
    ensures Outcome(i).run == i.request.run && Outcome(i).provider == i.instance
  {
  }

  /** An outcome names the delivery, attempt, run and instance of its call, so the call logged
      for a reported attempt agrees with the worker's own record of it. */
  lemma ReportedIsLogged(log: seq<Invocation>, i: Invocation)
    requires Reported(log, Outcome(i))
    ensures var logged := Invocations(log, i.request.attempt.delivery)[i.request.attempt.sequence - 1];
            1 <= i.request.attempt.sequence <= |Invocations(log, i.request.attempt.delivery)|
            && logged.instance == i.instance && logged.request.run == i.request.run
  {
    var p := Outcome(i);
    OutcomeFields(i);
    OutcomeFields(Invocations(log, p.attempt.delivery)[p.attempt.sequence - 1]);
  }

  lemma AnsweredIsObservable(hash: IntentId -> DeliveryId, y: World, w: nat)
    requires WorldInv(hash, y) && w < |y.workers| && y.workers[w].Answered?
    ensures var i := y.workers[w].invocation;
            && ValidInstance(i.instance)
            && Matched(y.ledger, i.request.delivery, i.request.attempt)
            && y.ledger.attempts[i.request.attempt].run == i.request.run
  {
    hide Observe, ReceiptInv, RetryInv, ScheduleInv, CountInv, HistoryInv, EventInv, Separate;
    var i := y.workers[w].invocation;
    assert WorkerInv(y.ledger, y.log, y.workers[w]);
    var q, id := i.request, i.request.delivery;
    AttemptRuns(hash, y.ledger, q.attempt);
    assert LogInv(y.log, id, y.ledger.deliveries[id].attemptCount);
    ReportedIsLogged(y.log, i);
  }

  lemma ReportValidates(i: Invocation)
    requires ValidInstance(i.instance)
    ensures ValidContract(Report(i)) && ValidDispatchObservation(Outcome(i))
    ensures Outcome(i).provider == i.instance && Outcome(i).delivery == i.request.delivery
    ensures Outcome(i).attempt == i.request.attempt && Outcome(i).run == i.request.run
  {
    hide ValidDispatchObservation;
    EveryReturnIsObservable(i.request, i.instance, i.since, i.result);
    InstanceIsBounded(i.instance);
  }

  /** In any world of a run, a worker's report of how the provider returned fails for one of
      three reasons only: other content was consumed under its identity, the delivery was
      concluded differently or can take no more revisions, or a unique key is taken. */
  lemma ReportCommitsExactlyWhen(hash: IntentId -> DeliveryId, trace: seq<World>, t: nat, w: nat)
    requires Run(hash, trace) && t < |trace|
    requires w < |trace[t].workers| && trace[t].workers[w].Answered?
    ensures var s, e := trace[t].ledger, Report(trace[t].workers[w].invocation);
            var p := Outcome(trace[t].workers[w].invocation);
            Apply(s, e).Success? <==>
              || SameEvent(s, e)
              || (e.id !in s.events && Late(s, p))
              || (e.id !in s.events && Open(s, p.delivery, p.attempt)
                  && s.deliveries[p.delivery].revision < LAST_REVISION
                  && !EvidenceTaken(s, e, p))
  {
    hide Run, WorldInv, Observe, ApplyDispatch, Open, Late, EvidenceTaken;
    RunKeepsWorldInv(hash, trace, t);
    var i := trace[t].workers[w].invocation;
    AnsweredIsObservable(hash, trace[t], w);
    ReportValidates(i);
    DispatchFailsAs(trace[t].ledger, Report(i), Outcome(i));
  }

  // What a worker's report leaves

  /** The provider asked for it, and neither the delivery's own limit nor the fourth attempt is
      reached. */
  predicate TriesAgain(i: Invocation, d: Delivery) {
    SaidTryAgain(i) && d.attemptCount < d.maxAttempts && d.attemptCount <= 3
  }

  /** The delivery after a call that returned like this: accepted, waiting for its next attempt
      the policy's delay or the provider's pause from then, or ended with the reason. */
  predicate EndsAs(i: Invocation, d: Delivery, d': Delivery) {
    && (d'.status, d'.finalReason) ==
       (if Accepting(i) then (Accepted, None)
        else if TriesAgain(i, d) then (RetryScheduled, None)
        else if SaidTryAgain(i) then (Failed, Some(RetryExhausted))
        else if Refusing(i) then (Failed, Some(PermanentFailureReported))
        else (DeliveryUnknown, Some(AmbiguousExternalEffect)))
    && d'.revision == d.revision + 1
    && d'.nextAttemptAt == (if TriesAgain(i, d) then
                              Some(At(i) + WaitAfter(d.attemptCount, Pause(i)))
                            else None)
    && d'.acceptedAt == (if Accepting(i) then Some(At(i)) else d.acceptedAt)
    && d'.finalAt == (if d'.finalReason.Some? then Some(At(i)) else None)
    && d'.updatedAt == At(i)
    && d'.intent == d.intent && d'.createdAt == d.createdAt && d'.deliveredAt == d.deliveredAt
    && d'.attemptCount == d.attemptCount && d'.maxAttempts == d.maxAttempts
  }

  /** The attempt after its call, with what the provider said about it. */
  predicate AttemptEndsAs(i: Invocation, a: Attempt, a': Attempt) {
    var remote, code := ReceiptIn(i.result, i.instance), CodeOf(i.result, i.instance);
    && a'.status == (if Accepting(i) then Taken
                     else if SaidTryAgain(i) then TemporarilyFailed
                     else if Refusing(i) then PermanentlyFailed
                     else Ambiguous)
    && a'.provider == Some(i.instance)
    && a'.remoteId == (if remote.Some? then Some(remote.value.remoteId) else None)
    && a'.remoteSource == (if remote.Some? then Some(i.instance) else None)
    && a'.remoteDigest == (if remote.Some? then Some(remote.value.digest) else None)
    && a'.failureCode == code
    && a'.failureClass == (if Accepting(i) then None
                           else if SaidTryAgain(i) then Some("temporary_failure")
                           else if Refusing(i) then Some("permanent_failure")
                           else Some("delivery_unknown"))
    && a'.completedAt == Some(At(i))
    && a'.delivery == a.delivery && a'.sequence == a.sequence && a'.run == a.run
    && a'.startedAt == a.startedAt
  }

  /** The receipt that an acceptance with a remote message adds. */
  function ReceiptsWith(s: Tables, i: Invocation): map<ReceiptKey, Receipt> {
    match ReceiptIn(i.result, i.instance)
    case None => s.receipts
    case Some(remote) =>
      s.receipts[ReceiptKey(i.instance, remote.remoteId, AcceptedReceipt) :=
        Receipt(i.request.delivery, i.request.attempt, remote.digest, At(i), At(i))]
  }

  /** The decision that a temporary failure adds, one for each attempt. */
  function DecisionsWith(s: Tables, i: Invocation, d: Delivery, d': Delivery): map<RetryKey, Retry> {
    if SaidTryAgain(i) then
      s.retries[RetryKey(i.request.delivery, DispatchObservation(i.request.attempt)) :=
        Retry(Automatic, None, d.revision, if TriesAgain(i, d) then Scheduled else Rejected,
              d'.nextAttemptAt, At(i))]
    else
      s.retries
  }

  /** All that a report changes: its delivery and attempt, the evidence of its outcome, and the
      event under the worker's own key. */
  ghost predicate FlightEnded(s: Tables, s': Tables, i: Invocation) {
    var id, attempt := i.request.delivery, i.request.attempt;
    && id in s.deliveries && attempt in s.attempts && id in s'.deliveries && attempt in s'.attempts
    && EndsAs(i, s.deliveries[id], s'.deliveries[id])
    && AttemptEndsAs(i, s.attempts[attempt], s'.attempts[attempt])
    && s'.deliveries == s.deliveries[id := s'.deliveries[id]]
    && s'.attempts == s.attempts[attempt := s'.attempts[attempt]]
    && s'.receipts == ReceiptsWith(s, i)
    && s'.retries == DecisionsWith(s, i, s.deliveries[id], s'.deliveries[id])
    && s' == s.(deliveries := s'.deliveries, attempts := s'.attempts, receipts := s'.receipts,
                retries := s'.retries, events := s'.events)
    && var key := DispatchObservation(attempt);
       s'.events == s.events[
         key := ConsumedEvent(EventDigest(key, 1, i.instance, Dispatch(Outcome(i))), At(i))]
  }

  lemma FlightIsNew(hash: IntentId -> DeliveryId, y: World, id: DeliveryId, attempt: AttemptId)
    requires WorldInv(hash, y) && Open(y.ledger, id, attempt)
    ensures var d := y.ledger.deliveries[id];
            && attempt == AttemptId(id, d.attemptCount) && d.attemptCount >= 1
            && d.nextAttemptAt.None? && d.finalAt.None? && d.finalReason.None?
  {
    hide Catalogue, ReceiptInv, HistoryInv, OutcomeInv, RetryInv, ScheduleInv, CountInv;
    AttemptBelongs(hash, y.ledger, id, attempt);
    assert DeliveryInv(y.ledger, id);
  }

  lemma DeliveryEnds(i: Invocation, d: Delivery)
    requires ValidInstance(i.instance) && d.attemptCount >= 1
    requires d.nextAttemptAt.None? && d.finalAt.None? && d.finalReason.None?
    ensures EndsAs(i, d, ObservedRow(d, Outcome(i)))
  {
    hide Outcome, SaidTryAgain, Accepting, Refusing, At, PauseOf;
    OutcomeIs(i);
    PauseIsShort(i);
  }

  lemma DecisionIs(i: Invocation, d: Delivery)
    requires SaidTryAgain(i) && d.attemptCount >= 1
    requires d.nextAttemptAt.None?
    ensures AutomaticDecision(d, Outcome(i)) ==
            Retry(Automatic, None, d.revision, if TriesAgain(i, d) then Scheduled else Rejected,
                  ObservedRow(d, Outcome(i)).nextAttemptAt, At(i))
  {
    hide Outcome, SaidTryAgain, Accepting, Refusing, At, PauseOf;
    OutcomeIs(i);
  }

  lemma ReceiptIsFromInstance(i: Invocation)
    ensures ReceiptIn(i.result, i.instance).Some? ==>
              Accepting(i) && ReceiptIn(i.result, i.instance).value.source == i.instance
    ensures Accepting(i) ==> CodeOf(i.result, i.instance).None?
    ensures !(Accepting(i) && SaidTryAgain(i)) && !(Accepting(i) && Refusing(i)) && !(SaidTryAgain(i) && Refusing(i))
  {
    hide Says, HexDigest;
  }

  lemma AttemptEnds(i: Invocation, a: Attempt)
    ensures AttemptEndsAs(i, a, Observed(a, StatusFor(Outcome(i).outcome), Outcome(i)))
  {
    hide Outcome, SaidTryAgain, Accepting, Refusing, At, CodeOf, ReceiptIn;
    OutcomeIs(i);
    OutcomeFields(i);
    ReceiptIsFromInstance(i);
  }

  lemma ReceiptsAre(s: Tables, i: Invocation)
    ensures var p := Outcome(i);
            ReceiptsWith(s, i) ==
            if AddsReceipt(p) then s.receipts[AcceptanceKey(p) := AcceptanceReceipt(p)] else s.receipts
  {
    hide Outcome, SaidTryAgain, Accepting, Refusing, At, CodeOf, ReceiptIn;
    OutcomeIs(i);
    OutcomeFields(i);
    ReceiptIsFromInstance(i);
  }

  lemma FlightWrites(s: Tables, i: Invocation, s': Tables)
    requires ValidInstance(i.instance) && Open(s, i.request.delivery, i.request.attempt)
    requires Report(i).id !in s.events && Apply(s, Report(i)) == Success(s')
    requires var d := s.deliveries[i.request.delivery];
             && d.attemptCount >= 1
             && d.nextAttemptAt.None? && d.finalAt.None? && d.finalReason.None?
    ensures FlightEnded(s, s', i)
  {
    hide ValidContract, ValidDispatchObservation, EvidenceClashes, Outcome, SaidTryAgain, TriesAgain;
    hide At, ReceiptIn, ObservedRow, Observed, AutomaticDecision, ReceiptsWith, AddsReceipt;
    hide EndsAs, AttemptEndsAs, HasReceipt, StatusFor;
    var id, attempt := i.request.delivery, i.request.attempt;
    OutcomeIs(i);
    ReportValidates(i);
    DeliveryEnds(i, s.deliveries[id]);
    AttemptEnds(i, s.attempts[attempt]);
    ReceiptsAre(s, i);
    if SaidTryAgain(i) {
      DecisionIs(i, s.deliveries[id]);
    }
  }

  /** A worker reports under a key of its own that names the attempt, as the instance that was
      called, at the time of the answer. */
  lemma ReportIsItsOwn(i: Invocation)
    ensures Report(i) == Envelope(
                           DispatchObservation(i.request.attempt), 1, i.instance, At(i), Dispatch(Outcome(i)))
  {
    hide Outcome, At;
    OutcomeIs(i);
    OutcomeFields(i);
  }

  /** Over a whole run: the report of an attempt in flight that commits leaves what the way its
      call returned says, and nothing else changes. */
  lemma ReportEndsFlight(hash: IntentId -> DeliveryId, trace: seq<World>, t: nat, w: nat, s': Tables)
    requires Run(hash, trace) && t < |trace|
    requires w < |trace[t].workers| && trace[t].workers[w].Answered?
    requires var i := trace[t].workers[w].invocation;
             && Open(trace[t].ledger, i.request.delivery, i.request.attempt)
             && DispatchObservation(i.request.attempt) !in trace[t].ledger.events
             && Apply(trace[t].ledger, Report(i)) == Success(s')
    ensures FlightEnded(trace[t].ledger, s', trace[t].workers[w].invocation)
  {
    hide Run, WorldInv, Observe, FlightEnded, ApplyDispatch, Apply;
    RunKeepsWorldInv(hash, trace, t);
    var i := trace[t].workers[w].invocation;
    AnsweredIsObservable(hash, trace[t], w);
    ReportValidates(i);
    FlightIsNew(hash, trace[t], i.request.delivery, i.request.attempt);
    FlightWrites(trace[t].ledger, i, s');
  }
}
