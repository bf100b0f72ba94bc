/** Authoritative receipts: what a first one writes, and that it is recorded once. */
module Receipts {
  import opened Wrappers
  import opened Records
  import opened Validation
  import opened Transactions
  import opened Refusals
  import opened Invariant
  import opened Evolution
  import opened System
  import opened Protocol
  import opened Guarantees

  // What a first receipt writes

  predicate RefusedAs(d: Delivery, d': Delivery, verdict: Verdict) {
    && d'.status == Failed && d'.finalReason == Some(ReceiptRefused(verdict))
    && d'.deliveredAt == d.deliveredAt && d'.acceptedAt == d.acceptedAt
  }

  /** The delivery after a receipt that concludes it: delivered for good, or failed for the reason
      that the receipt gives. What is known of its acceptance stays. */
  predicate ConcludesAs(p: ReceiptObserved, d: Delivery, d': Delivery) {
    && (match p.verdict
        case ReachedRecipient =>
          && d'.status == Delivered && d'.finalReason == Some(AuthoritativeDeliveryReceipt)
          && d'.deliveredAt == Some(p.observedAt)
          && d'.acceptedAt == (if d.acceptedAt.Some? then d.acceptedAt else Some(p.observedAt))
        case Bounced => RefusedAs(d, d', Bounced)
        case Refused => RefusedAs(d, d', Refused))
    && d'.revision == d.revision + 1
    && d'.nextAttemptAt.None?
    && d'.finalAt == Some(p.observedAt) && d'.updatedAt == p.observedAt
    && d'.intent == d.intent && d'.createdAt == d.createdAt
    && d'.attemptCount == d.attemptCount && d'.maxAttempts == d.maxAttempts
  }

  /** The attempt after it: taken or failed, whatever it was, and completed if it was not. */
  predicate AttemptConcludesAs(p: ReceiptObserved, a: Attempt, a': Attempt) {
    && a'.status == (if p.verdict == Bounced || p.verdict == Refused then PermanentlyFailed else Taken)
    && a'.completedAt == (if a.completedAt.Some? then a.completedAt else Some(p.observedAt))
    && a' == a.(status := a'.status, completedAt := a'.completedAt)
  }

  /** The one event that was consumed, whole. */
  ghost predicate Consumes(s: Tables, s': Tables, e: Envelope, at: Time) {
    s'.events == s.events[
      e.id := ConsumedEvent(EventDigest(e.id, e.version, e.source, e.payload), at)]
  }

  ghost predicate Concludes(s: Tables, s': Tables, e: Envelope, p: ReceiptObserved) {
    var id, attempt := p.delivery, p.attempt;
    && Known(s, id, attempt) && id in s'.deliveries && attempt in s'.attempts
    && ConcludesAs(p, s.deliveries[id], s'.deliveries[id])
    && AttemptConcludesAs(p, s.attempts[attempt], s'.attempts[attempt])
    && s'.deliveries == s.deliveries[id := s'.deliveries[id]]
    && s'.attempts == s.attempts[attempt := s'.attempts[attempt]]
    && s'.receipts == s.receipts[
         ReceiptKey(p.source, p.remoteId, FinalReceipt(p.verdict)) :=
           Receipt(id, attempt, p.digest, p.observedAt, e.occurredAt)]
    && Consumes(s, s', e, p.observedAt)
    && s' == s.(deliveries := s'.deliveries, attempts := s'.attempts, receipts := s'.receipts,
                events := s'.events)
  }

  lemma NothingIsNext(hash: IntentId -> DeliveryId, s: Tables, id: DeliveryId)
    requires Inv(hash, s) && id in s.deliveries && s.deliveries[id].status in {Attempting, Accepted}
    ensures s.deliveries[id].nextAttemptAt.None? && s.deliveries[id].deliveredAt.None?
  {
    hide Catalogue, SlotInv, ReceiptInv, HistoryInv, OutcomeInv, RetryInv, ScheduleInv, CountInv;
    assert DeliveryInv(s, id);
  }

  /** The first receipt of its kind concludes its attempt and its delivery, and changes no other
      row. */
  lemma FirstReceiptConcludes(
    hash: IntentId -> DeliveryId, s: Tables, e: Envelope, p: ReceiptObserved, s': Tables)
    requires Inv(hash, s) && e.payload == Authoritative(p) && Apply(s, e) == Success(s')
    requires e.id !in s.events && !Recorded(s, p)
    ensures Concludes(s, s', e, p)
  {
    hide Inv, ValidContract, ValidReceipt;
    ReceiptFailsAs(s, e, p);
    NothingIsNext(hash, s, p.delivery);
  }

  // Recorded once

  /** The receipt's own digest is the recorded one. */
  predicate DigestRecorded(s: Tables, p: ReceiptObserved) {
    && Recorded(s, p)
    && s.receipts[ReceiptKey(p.source, p.remoteId, FinalReceipt(p.verdict))].digest == p.digest
  }

  ghost predicate ReceiptsRecorded(s: Tables) {
    forall e | e in s.events && s.events[e].digest.payload.Authoritative? ::
      DigestRecorded(s, s.events[e].digest.payload.receipt)
  }

  lemma StaysRecorded(s: Tables, s': Tables, p: ReceiptObserved)
    requires DigestRecorded(s, p) && AppendOnly(s, s')
    ensures DigestRecorded(s', p)
  {
    hide Progress, SameAttempt;
  }

  lemma ReceiptRecords(s: Tables, e: Envelope, p: ReceiptObserved, s': Tables)
    requires ApplyReceipt(s, e, p) == Success(s') && e.id !in s.events
    ensures DigestRecorded(s', p)
  {
    hide Concluded, Confirmed;
  }

  lemma ApplyRecords(s: Tables, e: Envelope, p: ReceiptObserved, s': Tables)
    requires Apply(s, e) == Success(s') && e.payload == Authoritative(p) && e.id !in s.events
    ensures DigestRecorded(s', p)
  {
    hide ApplyReceipt, ValidContract, ValidReceipt, DigestRecorded;
    ReceiptRecords(s, e, p, s');
  }

  lemma EventsOf(s: Tables, s': Tables, e: Envelope, k: Key)
    requires ConsumesAtMost(s, s', e) && k in s'.events
    requires k in s.events ==> s'.events[k] == s.events[k]
    ensures k in s.events || (k == e.id && s'.events[k].digest.payload == e.payload)
  {
  }

  lemma ClaimConsumesNothing(
    s: Tables, keyReference: string, now: Time, locked: set<DeliveryId>, s': Tables)
    requires exists answer :: ClaimsDue(s, keyReference, now, locked, answer) && s' == After(s, answer)
    ensures s'.events == s.events
  {
    if s' != s {
      var id, request := PickedClaim(s, keyReference, now, locked, s');
    }
  }

  lemma EventStays(s: Tables, s': Tables, k: Key)
    requires AppendOnly(s, s') && k in s.events
    ensures k in s'.events && s'.events[k] == s.events[k]
  {
    hide Progress, SameAttempt;
  }

  lemma NewEventIsRecorded(hash: IntentId -> DeliveryId, s: Tables, action: Action, s': Tables, k: Key)
    requires AppendOnly(s, s') && Step(hash, s, action, s')
    requires k in s'.events && s'.events[k].digest.payload.Authoritative?
    ensures k in s.events ==> s'.events[k] == s.events[k]
    ensures k !in s.events ==> DigestRecorded(s', s'.events[k].digest.payload.receipt)
  {
    hide AppendOnly, ConsumesAtMost, DigestRecorded, Apply, ClaimsDue, RequestManualRetry, CreateIntent;
    if k in s.events {
      EventStays(s, s', k);
    } else if action.ClaimDue? {
      ClaimConsumesNothing(s, action.keyReference, action.now, action.locked, s');
    } else {
      OtherStepFrame(hash, s, action, s');
      EventsOf(s, s', action.envelope, k);
      ApplyRecords(s, action.envelope, action.envelope.payload.receipt, s');
    }
  }

  lemma StepRecords(hash: IntentId -> DeliveryId, s: Tables, action: Action, s': Tables)
    requires ReceiptsRecorded(s) && AppendOnly(s, s') && Step(hash, s, action, s')
    ensures ReceiptsRecorded(s')
  {
    hide Step, AppendOnly, ConsumesAtMost, DigestRecorded;
    forall k | k in s'.events && s'.events[k].digest.payload.Authoritative?
      ensures DigestRecorded(s', s'.events[k].digest.payload.receipt)
    {
      NewEventIsRecorded(hash, s, action, s', k);
      if k in s.events {
        StaysRecorded(s, s', s.events[k].digest.payload.receipt);
      }
    }
  }

  lemma FollowsRecords(hash: IntentId -> DeliveryId, y: World, y': World)
    requires ReceiptsRecorded(y.ledger) && AppendOnly(y.ledger, y'.ledger) && Follows(hash, y, y')
    ensures ReceiptsRecorded(y'.ledger)
  {
    hide Step, AppendOnly, ClaimsDue, ReceiptsRecorded;
    var event :| Next(hash, y, event, y');
    match event
    case Claims(w, keyReference, now, locked) =>
      StepOfClaim(hash, y, w, keyReference, now, locked, y');
      StepRecords(hash, y.ledger, ClaimDue(keyReference, now, locked), y'.ledger);
    case Reports(w) =>
      StepRecords(hash, y.ledger, ObserveEvent(Report(y.workers[w].invocation)), y'.ledger);
    case Acts(action) => StepRecords(hash, y.ledger, action, y'.ledger);
    case Invokes(_, _, _) =>
    case Stops(_) =>
  }

  lemma {:induction false} RunRecords(hash: IntentId -> DeliveryId, trace: seq<World>, t: nat)
    requires Run(hash, trace) && t < |trace|
    ensures ReceiptsRecorded(trace[t].ledger)
  {
    hide Next, AppendOnly, DigestRecorded, Inv;
    if t == 0 {
    } else {
      RunRecords(hash, trace, t - 1);
      RunIsAppendOnly(hash, trace, t - 1, t);
      assert Follows(hash, trace[t - 1], trace[t - 1 + 1]);
      FollowsRecords(hash, trace[t - 1], trace[t]);
    }
  }

  lemma CommittedReceiptIsConsumed(s: Tables, e: Envelope, p: ReceiptObserved, s': Tables)
    requires Apply(s, e) == Success(s') && e.payload == Authoritative(p)
    ensures e.id in s'.events && s'.events[e.id].digest.payload == e.payload
  {
    hide ValidContract, ValidReceipt, Concluded, Confirmed;
  }

  lemma RecordedAnswers(s: Tables, p: ReceiptObserved, f: Envelope, r: ReceiptObserved)
    requires DigestRecorded(s, p)
    requires r.source == p.source && r.remoteId == p.remoteId && r.verdict == p.verdict
    requires WellFormedEvent(f) && f.payload == Authoritative(r) && f.id !in s.events
    ensures if r.digest == p.digest then
              && Apply(s, f).Success? && Consumes(s, Apply(s, f).value, f, r.observedAt)
              && Apply(s, f).value == s.(events := Apply(s, f).value.events)
            else
              Apply(s, f) == Failure(Conflict)
  {
    hide ValidContract, ValidReceipt, CommitVerdict, WellFormedEvent;
    MalformedIsRefused(s, f);
    ReceiptFailsAs(s, f, r);
  }

  /** Once a receipt has committed, one for the same source, remote message and verdict under a new
      event identity only consumes its event at any later point of any run if it has the first
      one's digest, and fails if it has another; whatever delivery and attempt it names. */
  lemma ReceiptRecordedOnce(
    hash: IntentId -> DeliveryId, trace: seq<World>, i: nat, j: nat, e: Envelope, p: ReceiptObserved,
    f: Envelope, r: ReceiptObserved)
    requires Run(hash, trace) && i + 1 <= j < |trace|
    requires e.payload == Authoritative(p) && Apply(trace[i].ledger, e) == Success(trace[i + 1].ledger)
    requires r.source == p.source && r.remoteId == p.remoteId && r.verdict == p.verdict
    requires WellFormedEvent(f) && f.payload == Authoritative(r) && f.id !in trace[j].ledger.events
    ensures var s := trace[j].ledger;
            if r.digest == p.digest then
              && Apply(s, f).Success? && Consumes(s, Apply(s, f).value, f, r.observedAt)
              && Apply(s, f).value == s.(events := Apply(s, f).value.events)
            else
              Apply(s, f) == Failure(Conflict)
  {
    hide Run, Apply, WellFormedEvent, DigestRecorded, AppendOnly;
    CommittedReceiptIsConsumed(trace[i].ledger, e, p, trace[i + 1].ledger);
    RunRecords(hash, trace, i + 1);
    RunIsAppendOnly(hash, trace, i + 1, j);
    StaysRecorded(trace[i + 1].ledger, trace[j].ledger, p);
    RecordedAnswers(trace[j].ledger, p, f, r);
  }
}
