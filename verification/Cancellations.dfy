/** The end of an invitation, by acceptance, expiry or revocation: which deliveries it ends. */
module Cancellations {
  import opened Wrappers
  import opened Records
  import opened Validation
  import opened Transactions
  import opened Refusals
  import opened Invariant
  import opened Evolution
  import opened System
  import opened Protocol
  import opened Receipts
  import opened Creates

  /** A delivery of this caller for this invitation, requested by then, and still waiting. */
  predicate Concerned(s: Tables, id: DeliveryId, source: string, p: LifecycleObserved) {
    && id in s.deliveries && s.deliveries[id].intent in s.intents
    && s.deliveries[id].intent.caller == source
    && (s.deliveries[id].status == Queued || s.deliveries[id].status == RetryScheduled)
    && var intent := s.intents[s.deliveries[id].intent];
       && intent.entityType == "organization_invitation" && intent.entityId == p.invitation
       && intent.requestedAt <= p.observedAt
  }

  predicate Exhausted(d: Delivery) {
    d.revision >= LAST_REVISION
  }

  /** The row of a delivery whose invitation has ended at the time. */
  predicate CalledOff(d: Delivery, d': Delivery, lifecycle: Lifecycle, at: Time) {
    && d'.status == Failed && d'.finalReason == Some(SourceInvitation(lifecycle))
    && d'.revision == d.revision + 1
    && d'.nextAttemptAt.None? && d'.finalAt == Some(at) && d'.updatedAt == at
    && d'.intent == d.intent && d'.createdAt == d.createdAt
    && d'.attemptCount == d.attemptCount && d'.maxAttempts == d.maxAttempts
    && d'.acceptedAt == d.acceptedAt && d'.deliveredAt == d.deliveredAt
  }

  predicate EndsOrStays(s: Tables, s': Tables, id: DeliveryId, e: Envelope, p: LifecycleObserved)
    requires id in s.deliveries && id in s'.deliveries
  {
    if Concerned(s, id, e.source, p) then
      CalledOff(s.deliveries[id], s'.deliveries[id], p.lifecycle, e.occurredAt)
    else
      s'.deliveries[id] == s.deliveries[id]
  }

  /** All that a committed end of an invitation changes. */
  ghost predicate CallsOff(s: Tables, s': Tables, e: Envelope, p: LifecycleObserved) {
    && s'.deliveries.Keys == s.deliveries.Keys
    && (forall id | id in s.deliveries :: EndsOrStays(s, s', id, e, p))
    && s'.lifecycle == s.lifecycle[
         e.id := LifecycleEvent(e.source, p.invitation, p.lifecycle, p.observedAt, e.occurredAt)]
    && Consumes(s, s', e, p.observedAt)
    && s' == s.(deliveries := s'.deliveries, lifecycle := s'.lifecycle, events := s'.events)
  }

  lemma ConcernedExactlyWhen(s: Tables, id: DeliveryId, source: string, p: LifecycleObserved)
    ensures CancelledBy(s, id, source, p) <==> Concerned(s, id, source, p)
    ensures Concerned(s, id, source, p) ==> id in s.deliveries
  {
  }

  lemma LifecycleIsNew(hash: IntentId -> DeliveryId, s: Tables, k: Key)
    requires Inv(hash, s) && k !in s.events
    ensures k !in s.lifecycle
  {
    hide DeliveryInv, IntentRow, DeliveryIdentity, SnapshotIdentity;
    assert Owned(s);
  }

  lemma SameConcern(s: Tables, s': Tables, id: DeliveryId, source: string, p: LifecycleObserved)
    requires s'.deliveries == s.deliveries && s'.intents == s.intents
    ensures Concerned(s', id, source, p) <==> Concerned(s, id, source, p)
  {
  }

  lemma CancelsAll(s: Tables, e: Envelope, p: LifecycleObserved)
    requires e.id !in s.events && e.id !in s.lifecycle
    ensures var answer, stuck := ApplyLifecycle(s, e, p),
                exists id :: Concerned(s, id, e.source, p) && Exhausted(s.deliveries[id]);
            && (if stuck then answer == Failure(Conflict) else answer.Success?)
            && (answer.Success? ==> CallsOff(s, answer.value, e, p))
  {
    hide CancelledBy, Concerned;
    var s1 := ClaimEvent(s, e, p.observedAt).tables;
    forall id
      ensures CancelledBy(s1, id, e.source, p) <==> Concerned(s, id, e.source, p)
      ensures Concerned(s, id, e.source, p) ==> id in s.deliveries
    {
      ConcernedExactlyWhen(s1, id, e.source, p);
      SameConcern(s, s1, id, e.source, p);
    }
    if id :| Concerned(s, id, e.source, p) && Exhausted(s.deliveries[id]) {
      assert CancelledBy(s1, id, e.source, p) && id in s1.deliveries;
    } else {
      var s' := ApplyLifecycle(s, e, p).value;
      assert s'.deliveries == Cancelled(s1, e, p);
      forall id | id in s.deliveries ensures EndsOrStays(s, s', id, e, p) {
        assert CancelledBy(s1, id, e.source, p) <==> Concerned(s, id, e.source, p);
      }
    }
  }

  lemma NoneIsConcerned(s: Tables, s': Tables, e: Envelope, p: LifecycleObserved, id: DeliveryId)
    requires CallsOff(s, s', e, p)
    ensures !Concerned(s', id, e.source, p)
  {
    if id in s.deliveries {
      assert EndsOrStays(s, s', id, e, p);
    }
  }

  /** The end of an invitation fails only when it would end a delivery without revisions left.
      Otherwise it ends every waiting delivery of that caller and invitation requested by then,
      each by one revision and with its invitation as the reason, leaves none of them waiting,
      and touches nothing else. */
  lemma CancellationIsExact(hash: IntentId -> DeliveryId, s: Tables, e: Envelope, p: LifecycleObserved)
    requires Inv(hash, s) && WellFormedEvent(e) && e.payload == Invitation(p) && e.id !in s.events
    ensures var answer, stuck := Apply(s, e),
                exists id :: Concerned(s, id, e.source, p) && Exhausted(s.deliveries[id]);
            && (if stuck then answer == Failure(Conflict) else answer.Success?)
            && (answer.Success? ==>
                  && CallsOff(s, answer.value, e, p)
                  && forall id :: !Concerned(answer.value, id, e.source, p))
  {
    hide Inv, ApplyLifecycle, Concerned, CallsOff, WellFormedEvent;
    MalformedIsRefused(s, e);
    LifecycleIsNew(hash, s, e.id);
    CancelsAll(s, e, p);
    if Apply(s, e).Success? {
      forall id ensures !Concerned(Apply(s, e).value, id, e.source, p) {
        NoneIsConcerned(s, Apply(s, e).value, e, p, id);
      }
    }
  }

  /** A create is called off by the end of its own invitation only. At any later point of any run
      the end of an invitation ends the created delivery, if it is waiting, exactly when the
      create was this caller's, for this invitation, and made by then; otherwise its row stays
      as it is. */
  lemma OnlyItsInvitationEnds(
    hash: IntentId -> DeliveryId, trace: seq<World>, i: nat, j: nat, request: IntentRequest,
    rendered: Rendered, keyReference: string, now: Time, id: DeliveryId, e: Envelope,
    p: LifecycleObserved, s': Tables)
    requires Run(hash, trace) && i + 1 <= j < |trace|
    requires CreateIntent(trace[i].ledger, hash, request, rendered, keyReference, now)
             == Success((trace[i + 1].ledger, IntentReceipt(id, Queued, false)))
    requires WellFormedEvent(e) && e.payload == Invitation(p) && e.id !in trace[j].ledger.events
    requires Apply(trace[j].ledger, e) == Success(s')
    ensures id in trace[j].ledger.deliveries && id in s'.deliveries
    ensures var d, d' := trace[j].ledger.deliveries[id], s'.deliveries[id];
            if && request.key.caller == e.source
               && request.entityType == "organization_invitation"
               && request.entityId == p.invitation
               && now <= p.observedAt
               && (d.status == Queued || d.status == RetryScheduled)
            then CalledOff(d, d', p.lifecycle, e.occurredAt)
            else d' == d
  {
    hide Run, Inv, EventInv, WorkerInv, LogInv, Separate, CreateIntent, Apply, WellFormedEvent, CalledOff;
    hide NewSnapshot;
    RunKeepsWorldInv(hash, trace, j);
    CreatedIsKept(hash, trace, i, j, request, rendered, keyReference, now, id);
    CancellationIsExact(hash, trace[j].ledger, e, p);
    assert EndsOrStays(trace[j].ledger, s', id, e, p);
  }
}
