/** The ledger as the program holds it: mutable tables that transactions change statement by
    statement and restore when they fail. Each method commits exactly what its specification in
    module `Transactions` says, or leaves every table as it was. */
module LedgerStore {
  import opened Wrappers
  import opened Records
  import opened Validation
  import T = Transactions

  /** A transaction from `before` ends in `after` with this outcome, as `spec` prescribes. */
  ghost predicate Ends(before: Tables, after: Tables, outcome: Result<()>, spec: Result<Tables>) {
    match spec
    case Success(tables) => after == tables && outcome == Success(())
    case Failure(error) => after == before && outcome == Failure(error)
  }

  ghost predicate Answers<A>(
    before: Tables, after: Tables, outcome: Result<A>, spec: Result<(Tables, A)>)
  {
    match spec
    case Success((tables, answer)) => after == tables && outcome == Success(answer)
    case Failure(error) => after == before && outcome == Failure(error)
  }

  class Ledger {
    var releases: map<ReleaseKey, Release>
    var snapshots: map<RequestDigest, Snapshot>
    var intents: map<IntentKey, Intent>
    var deliveries: map<DeliveryId, Delivery>
    var attempts: map<AttemptId, Attempt>
    var receipts: map<ReceiptKey, Receipt>
    var retries: map<RetryKey, Retry>
    var events: map<Key, ConsumedEvent>
    var lifecycle: map<Key, LifecycleEvent>

    function Contents(): Tables
      reads this
    {
      Tables(releases, snapshots, intents, deliveries, attempts, receipts, retries, events, lifecycle)
    }

    constructor ()
      ensures Contents() == Tables(map[], map[], map[], map[], map[], map[], map[], map[], map[])
    {
      releases, snapshots, intents := map[], map[], map[];
      deliveries, attempts, receipts := map[], map[], map[];
      retries, events, lifecycle := map[], map[], map[];
    }

    method Rollback(begun: Tables)
      modifies this
      ensures Contents() == begun
    {
      releases, snapshots, intents := begun.releases, begun.snapshots, begun.intents;
      deliveries, attempts, receipts := begun.deliveries, begun.attempts, begun.receipts;
      retries, events, lifecycle := begun.retries, begun.events, begun.lifecycle;
    }

    // Statements

    /** Inserts the consumed-event row, or compares against the one already there. */
    method ClaimEvent(e: Envelope, at: Time) returns (replayed: Result<bool>)
      modifies this`events
      ensures match T.ClaimEvent(old(Contents()), e, at)
              case Admitted(s) => replayed == Success(false) && Contents() == s
              case Replayed => replayed == Success(true) && Contents() == old(Contents())
              case Altered => replayed == Failure(Conflict) && Contents() == old(Contents())
    {
      if e.id !in events {
        events := events[e.id := ConsumedEvent(T.Digest(e), at)];
        return Success(false);
      }
      if events[e.id].digest != T.Digest(e) {
        return Failure(Conflict);
      }
      return Success(true);
    }

    /** Records an observation on an attempt that is still dispatching. */
    method UpdateAttempt(status: AttemptStatus, p: DispatchObserved)
      requires p.attempt in attempts
      modifies this`attempts
      ensures attempts == if old(attempts)[p.attempt].status == Dispatching then
                            old(attempts)[p.attempt := T.Observed(old(attempts)[p.attempt], status, p)]
                          else
                            old(attempts)
    {
      if attempts[p.attempt].status == Dispatching {
        attempts := attempts[p.attempt := T.Observed(attempts[p.attempt], status, p)];
      }
    }

    /** Replaces a delivery row whose revision is still the one read; answers whether it did. */
    method CompareAndSet(id: DeliveryId, revision: int, row: Delivery, from: set<DeliveryStatus>)
      returns (updated: bool)
      modifies this`deliveries
      ensures updated == (&& id in old(deliveries)
                          && old(deliveries)[id].revision == revision < MAX_SAFE_WIRE_INTEGER
                          && old(deliveries)[id].status in from)
      ensures deliveries == if updated then old(deliveries)[id := row] else old(deliveries)
    {
      updated := && id in deliveries
                 && deliveries[id].revision == revision < MAX_SAFE_WIRE_INTEGER
                 && deliveries[id].status in from;
      if updated {
        deliveries := deliveries[id := row];
      }
    }

    method InsertReceipt(key: ReceiptKey, row: Receipt) returns (inserted: bool)
      modifies this`receipts
      ensures inserted == (key !in old(receipts))
      ensures receipts == if inserted then old(receipts)[key := row] else old(receipts)
    {
      inserted := key !in receipts;
      if inserted {
        receipts := receipts[key := row];
      }
    }

    method InsertRetryDecision(key: RetryKey, row: Retry) returns (inserted: bool)
      modifies this`retries
      ensures inserted == (key !in old(retries))
      ensures retries == if inserted then old(retries)[key := row] else old(retries)
    {
      inserted := key !in retries;
      if inserted {
        retries := retries[key := row];
      }
    }

    method FinalizeDelivery(
      id: DeliveryId, revision: int, status: DeliveryStatus, reason: FinalReason, now: Time)
      returns (updated: bool)
      requires id in deliveries
      modifies this`deliveries
      ensures updated == (&& old(deliveries)[id].revision == revision < MAX_SAFE_WIRE_INTEGER
                          && old(deliveries)[id].status in {Attempting, Accepted})
      ensures deliveries == if updated then
                              old(deliveries)[id := T.Finalized(old(deliveries)[id], status, reason, now)]
                            else
                              old(deliveries)
    {
      updated := CompareAndSet(
        id, revision, T.Finalized(deliveries[id], status, reason, now), {Attempting, Accepted});
    }

    // Observations

    /** Writes the outcome of the attempt in flight; answers whether no unique key clashed. */
    method RecordOutcome(e: Envelope, p: DispatchObserved) returns (written: bool)
      requires T.Matched(Contents(), p.delivery, p.attempt)
      requires attempts[p.attempt].status == Dispatching
      requires deliveries[p.delivery].status == Attempting
      requires deliveries[p.delivery].revision < MAX_SAFE_WIRE_INTEGER
      modifies this`attempts, this`deliveries, this`receipts, this`retries
      ensures written == !T.EvidenceClashes(old(Contents()), e, p)
      ensures written ==> Contents() == T.CommitOutcome(old(Contents()), e, p)
    {
      var d := deliveries[p.delivery];
      written := true;
      UpdateAttempt(T.StatusFor(p.outcome), p);
      match p.outcome {
        case ProviderAccepted =>
          var updated := CompareAndSet(
            p.delivery, d.revision, T.AcceptedRow(d, p.observedAt), {Attempting});
          assert updated;
          if p.remoteReceipt.Some? {
            written := InsertReceipt(T.AcceptanceKey(p), T.AcceptanceReceipt(p));
          }
        case TemporaryFailure =>
          var next := T.RetrySchedule(d.maxAttempts, d.attemptCount, p);
          var decision := Scheduled;
          if next.Some? {
            var updated := CompareAndSet(
              p.delivery, d.revision, T.RescheduledRow(d, next.value, p.observedAt), {Attempting});
            assert updated;
          } else {
            var updated := FinalizeDelivery(
              p.delivery, d.revision, Failed, RetryExhausted, p.observedAt);
            assert updated;
            decision := Rejected;
          }
          written := InsertRetryDecision(
            RetryKey(p.delivery, e.id),
            Retry(Automatic, None, d.revision, decision, next, p.observedAt));
        case PermanentFailure =>
          written := FinalizeDelivery(
            p.delivery, d.revision, Failed, PermanentFailureReported, p.observedAt);
        case OutcomeUnknown =>
          written := FinalizeDelivery(
            p.delivery, d.revision, DeliveryUnknown, AmbiguousExternalEffect, p.observedAt);
      }
    }

    method ApplyDispatch(e: Envelope, p: DispatchObserved) returns (outcome: Result<()>)
      modifies this
      ensures Ends(old(Contents()), Contents(), outcome, T.ApplyDispatch(old(Contents()), e, p))
    {
      var begun := Contents();
      var replayed := ClaimEvent(e, p.observedAt);
      if replayed.Failure? {
        return Failure(replayed.error);
      }
      if replayed.value {
        return Success(());
      }
      if !T.Matched(Contents(), p.delivery, p.attempt) {
        Rollback(begun);
        return Failure(NotFound);
      }
      var d, a := deliveries[p.delivery], attempts[p.attempt];
      var hasReceipt := T.HasReceipt(Contents(), p.attempt);
      if a.run != p.run {
        Rollback(begun);
        return Failure(Conflict);
      }
      if d.status != Attempting {
        if T.LateObservationIsCompatible(d.status, hasReceipt, p.outcome) {
          attempts := attempts[p.attempt := T.Absorbed(a, p)];
          return Success(());
        }
        Rollback(begun);
        return Failure(Conflict);
      }
      if a.status != Dispatching || d.revision >= MAX_SAFE_WIRE_INTEGER {
        Rollback(begun);
        return Failure(Conflict);
      }
      var written := RecordOutcome(e, p);
      if !written {
        Rollback(begun);
        return Failure(Internal);
      }
      return Success(());
    }

    /** Writes a new receipt and what it decides about its attempt and delivery. */
    method RecordVerdict(e: Envelope, p: ReceiptObserved)
      requires T.Matched(Contents(), p.delivery, p.attempt)
      requires T.ReceiptKeyOf(p) !in receipts
      requires deliveries[p.delivery].status in {Attempting, Accepted}
      requires deliveries[p.delivery].revision < MAX_SAFE_WIRE_INTEGER
      modifies this`receipts, this`attempts, this`deliveries
      ensures Contents() == T.CommitVerdict(old(Contents()), e, p)
    {
      var d, a := deliveries[p.delivery], attempts[p.attempt];
      var inserted := InsertReceipt(T.ReceiptKeyOf(p), T.VerdictReceipt(e, p));
      attempts := attempts[p.attempt := T.Confirmed(a, p)];
      if p.verdict == ReachedRecipient {
        var updated := CompareAndSet(
          p.delivery, d.revision, T.Concluded(d, p), {Attempting, Accepted});
        assert updated;
      } else {
        var updated := FinalizeDelivery(
          p.delivery, d.revision, Failed, ReceiptRefused(p.verdict), p.observedAt);
        assert updated;
      }
    }

    method ApplyReceipt(e: Envelope, p: ReceiptObserved) returns (outcome: Result<()>)
      modifies this
      ensures Ends(old(Contents()), Contents(), outcome, T.ApplyReceipt(old(Contents()), e, p))
    {
      var begun := Contents();
      var replayed := ClaimEvent(e, p.observedAt);
      if replayed.Failure? {
        return Failure(replayed.error);
      }
      if replayed.value {
        return Success(());
      }
      var key := T.ReceiptKeyOf(p);
      if key in receipts {
        if receipts[key].digest != p.digest {
          Rollback(begun);
          return Failure(Conflict);
        }
        return Success(());
      }
      if !T.Matched(Contents(), p.delivery, p.attempt) {
        Rollback(begun);
        return Failure(NotFound);
      }
      var d, a := deliveries[p.delivery], attempts[p.attempt];
      if a.run != p.run || d.status !in {Attempting, Accepted}
         || d.revision >= MAX_SAFE_WIRE_INTEGER {
        Rollback(begun);
        return Failure(Conflict);
      }
      RecordVerdict(e, p);
      return Success(());
    }

    /** The cancelling update, whose own guard repeats the revision check. */
    method CancelMatching(e: Envelope, p: LifecycleObserved, s: Tables)
      requires deliveries == s.deliveries
      requires forall id | id in deliveries && T.CancelledBy(s, id, e.source, p) ::
                 deliveries[id].revision < MAX_SAFE_WIRE_INTEGER
      modifies this`deliveries
      ensures deliveries == T.Cancelled(s, e, p)
    {
      deliveries := map id | id in deliveries ::
        if T.CancelledBy(s, id, e.source, p) && deliveries[id].revision < MAX_SAFE_WIRE_INTEGER then
          T.CancelledRow(deliveries[id], e, p)
        else
          deliveries[id];
    }

    method ApplyLifecycle(e: Envelope, p: LifecycleObserved) returns (outcome: Result<()>)
      modifies this
      ensures Ends(old(Contents()), Contents(), outcome, T.ApplyLifecycle(old(Contents()), e, p))
    {
      var begun := Contents();
      var replayed := ClaimEvent(e, p.observedAt);
      if replayed.Failure? {
        return Failure(replayed.error);
      }
      if replayed.value {
        return Success(());
      }
      var s := Contents();
      if exists id | id in deliveries ::
           T.CancelledBy(s, id, e.source, p) && deliveries[id].revision >= MAX_SAFE_WIRE_INTEGER
      {
        Rollback(begun);
        return Failure(Conflict);
      }
      if e.id in lifecycle {
        Rollback(begun);
        return Failure(Internal);
      }
      lifecycle := lifecycle[
        e.id := LifecycleEvent(e.source, p.invitation, p.lifecycle, p.observedAt, e.occurredAt)];
      CancelMatching(e, p, s);
      return Success(());
    }

    method Apply(e: Envelope) returns (outcome: Result<()>)
      modifies this
      ensures Ends(old(Contents()), Contents(), outcome, T.Apply(old(Contents()), e))
    {
      if !ValidContract(e) {
        return Failure(Validation);
      }
      match e.payload {
        case Dispatch(p) =>
          if e.source != p.provider || !ValidDispatchObservation(p) {
            return Failure(Validation);
          }
          outcome := ApplyDispatch(e, p);
        case Authoritative(p) =>
          if e.source != p.source || !ValidReceipt(p) {
            return Failure(Validation);
          }
          outcome := ApplyReceipt(e, p);
        case Invitation(p) =>
          outcome := ApplyLifecycle(e, p);
      }
    }

    // Claims, retries and creates

    /** The ordered, lock-skipping selection of one due row. */
    method SelectDue(now: Time, locked: set<DeliveryId>) returns (selected: Option<DeliveryId>)
      ensures selected.None? ==> forall id :: !T.Due(Contents(), id, now, locked)
      ensures selected.Some? ==> T.FirstDue(Contents(), selected.value, now, locked)
    {
      var s := Contents();
      var due := set id | id in s.deliveries && T.Due(s, id, now, locked);
      assert forall id :: T.Due(s, id, now, locked) ==> id in due;
      if due == {} {
        return None;
      }
      var some :| some in due;
      ghost var least := T.FirstDueExists(s, now, locked, due, some);
      var id :| id in due && forall other | other in due :: T.ClaimedBefore(s, id, other);
      return Some(id);
    }

    method ClaimOneDue(keyReference: string, now: Time, locked: set<DeliveryId>)
      returns (
        outcome: Result<Option<DispatchRequest>>,
        ghost next: Result<(Tables, Option<DispatchRequest>)>)
      modifies this
      ensures T.ClaimsDue(old(Contents()), keyReference, now, locked, next)
      ensures Answers(old(Contents()), Contents(), outcome, next)
    {
      var s := Contents();
      var selected := SelectDue(now, locked);
      if selected.None? {
        return Success(None), Success((s, None));
      }
      var id := selected.value;
      assert T.Due(s, id, now, locked);
      next := T.ClaimAnswer(s, keyReference, id, now);
      var d := deliveries[id];
      var attempt := AttemptId(id, d.attemptCount + 1);
      if d.revision >= MAX_SAFE_WIRE_INTEGER || d.attemptCount + 1 > d.maxAttempts {
        return Failure(Conflict), next;
      }
      var request := T.RequestFor(s, keyReference, id, attempt);
      if request.Failure? {
        return Failure(request.error), next;
      }
      if attempt in attempts {
        return Failure(Internal), next;
      }
      attempts := attempts[attempt := T.NewAttempt(attempt, now)];
      var updated := CompareAndSet(id, d.revision, T.ClaimedRow(d, now), {Queued, RetryScheduled});
      assert updated;
      return Success(Some(request.value)), next;
    }

    method RequestManualRetry(
      id: DeliveryId, expectedRevision: int, key: Key, requestedBy: string, now: Time)
      returns (outcome: Result<T.RetryAnswer>)
      modifies this
      ensures Answers(old(Contents()), Contents(), outcome,
                      T.RequestManualRetry(old(Contents()), id, expectedRevision, key, requestedBy, now))
    {
      var retryKey := RetryKey(id, key);
      if retryKey in retries && id in deliveries {
        var at := retries[retryKey].scheduledAt;
        if at.None? {
          return Failure(Conflict);
        }
        return Success(T.RetryAnswer(deliveries[id].revision, deliveries[id].status, at.value, true));
      }
      if id !in deliveries {
        return Failure(NotFound);
      }
      var d := deliveries[id];
      if d.revision != expectedRevision || d.revision >= MAX_SAFE_WIRE_INTEGER
         || d.status != RetryScheduled || d.attemptCount >= d.maxAttempts {
        return Failure(Conflict);
      }
      var inserted := InsertRetryDecision(
        retryKey, Retry(Manual, Some(requestedBy), expectedRevision, Scheduled, Some(now), now));
      var updated := CompareAndSet(id, expectedRevision, T.RetriedRow(d, now), {RetryScheduled});
      assert updated;
      return Success(T.RetryAnswer(expectedRevision + 1, RetryScheduled, now, false));
    }

    method CreateIntent(
      hash: IntentId -> DeliveryId, request: IntentRequest, rendered: Rendered,
      keyReference: string, now: Time)
      returns (outcome: Result<T.IntentReceipt>)
      modifies this
      ensures Answers(old(Contents()), Contents(), outcome,
                      T.CreateIntent(old(Contents()), hash, request, rendered, keyReference, now))
    {
      if !T.ValidRequest(request, now) {
        return Failure(Validation);
      }
      if !T.ValidRendered(request, rendered) {
        return Failure(Internal);
      }
      var begun := Contents();
      var existing := T.FindIntent(begun, hash, request);
      if existing.Failure? {
        return Failure(existing.error);
      }
      if existing.value.Some? {
        return Success(existing.value.value);
      }
      if rendered.release !in releases {
        releases := releases[rendered.release := T.ReleaseOf(rendered, now)];
      }
      if releases[rendered.release].templateDigest != rendered.templateDigest {
        Rollback(begun);
        return Failure(Internal);
      }
      if !T.MaskFits(request.address) {
        Rollback(begun);
        return Failure(Internal);
      }
      var digest := RequestDigest(request);
      var id := hash(IntentId(request.key, digest));
      if digest in snapshots || request.key in intents || id in deliveries {
        Rollback(begun);
        return Failure(Internal);
      }
      snapshots := snapshots[digest := T.SnapshotOf(rendered, keyReference, now)];
      intents := intents[request.key := T.IntentOf(request, keyReference, now)];
      deliveries := deliveries[id := T.QueuedRow(request.key, now)];
      return Success(T.IntentReceipt(id, Queued, false));
    }
  }
}
