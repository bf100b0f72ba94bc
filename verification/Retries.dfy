/** Manual retries: an operator moves a scheduled retry to now, once for each idempotency key. */
module Retries {
  import opened Wrappers
  import opened Records
  import opened Transactions
  import opened Refusals
  import opened Invariant
  import opened Evolution
  import opened System
  import opened Protocol
  import opened Guarantees

  /** The schedule is now and the revision one higher; no status, no attempt and no other
      delivery has changed, and the one decision added is the manual one. */
  ghost predicate MovesSchedule(
    s: Tables, s': Tables, id: DeliveryId, key: Key, requestedBy: string, now: Time)
    requires id in s.deliveries
  {
    var d, retryKey := s.deliveries[id], RetryKey(id, key);
    && s' == s.(deliveries := s'.deliveries, retries := s'.retries)
    && s'.deliveries == s.deliveries[
         id := d.(nextAttemptAt := Some(now), revision := d.revision + 1, updatedAt := now)]
    && retryKey in s'.retries
    && s'.retries == s.retries[retryKey := s'.retries[retryKey]]
    && s'.retries[retryKey].kind == Manual && s'.retries[retryKey].decision == Scheduled
    && s'.retries[retryKey].requestedBy == Some(requestedBy)
    && s'.retries[retryKey].sourceRevision == d.revision
    && s'.retries[retryKey].scheduledAt == Some(now)
    && s'.retries[retryKey].createdAt == now
  }

  lemma ScheduledHasAttempts(hash: IntentId -> DeliveryId, y: World, id: DeliveryId)
    requires WorldInv(hash, y) && id in y.ledger.deliveries
    ensures var d := y.ledger.deliveries[id];
            d.status == RetryScheduled ==> d.attemptCount < d.maxAttempts
  {
    hide Catalogue, SlotInv, ReceiptInv, HistoryInv, RetryInv, ScheduleInv, CountInv;
    assert DeliveryInv(y.ledger, id);
  }

  /** A manual retry in any world of a run. A key that was used before, by an operator or for an
      automatic decision, is answered with the schedule it has, or refused if it has none. Under
      a new key it commits exactly when the delivery is waiting for a retry at the expected
      revision and has a revision left; that it has attempts left goes without saying. It then
      moves the schedule to now, answers the new revision, and changes nothing else. */
  lemma ManualRetryDecides(
    hash: IntentId -> DeliveryId, trace: seq<World>, t: nat, id: DeliveryId, revision: int, key: Key,
    requestedBy: string, now: Time)
    requires Run(hash, trace) && t < |trace|
    ensures var s, retryKey := trace[t].ledger, RetryKey(id, key);
            var answer := RequestManualRetry(s, id, revision, key, requestedBy, now);
            if id !in s.deliveries then
              answer == Failure(NotFound)
            else
              var d := s.deliveries[id];
              if retryKey in s.retries && s.retries[retryKey].scheduledAt.Some? then
                answer == Success((s, RetryAnswer(
                                        d.revision, d.status, s.retries[retryKey].scheduledAt.value, true)))
              else if && retryKey !in s.retries
                      && d.status == RetryScheduled && d.revision == revision < LAST_REVISION then
                && answer.Success?
                && answer.value.1 == RetryAnswer(revision + 1, RetryScheduled, now, false)
                && MovesSchedule(s, answer.value.0, id, key, requestedBy, now)
              else
                answer == Failure(Conflict)
  {
    hide Run, WorldInv;
    RunKeepsWorldInv(hash, trace, t);
    if id in trace[t].ledger.deliveries {
      ScheduledHasAttempts(hash, trace[t], id);
    }
  }

  /** Once answered, a key is answered again at any later point of any run with the schedule it
      was given first, whatever revision is expected then, and nothing is written. */
  lemma ManualRetryAnsweredOnce(
    hash: IntentId -> DeliveryId, trace: seq<World>, i: nat, j: nat, id: DeliveryId, revision: int,
    key: Key, requestedBy: string, now: Time, answer: RetryAnswer,
    revision': int, requestedBy': string, now': Time)
    requires Run(hash, trace) && i + 1 <= j < |trace|
    requires RequestManualRetry(trace[i].ledger, id, revision, key, requestedBy, now)
             == Success((trace[i + 1].ledger, answer))
    ensures id in trace[j].ledger.deliveries
    ensures var s, d := trace[j].ledger, trace[j].ledger.deliveries[id];
            RequestManualRetry(s, id, revision', key, requestedBy', now') ==
            Success((s, RetryAnswer(d.revision, d.status, answer.scheduledAt, true)))
  {
    hide Run, SameAttempt, Progress;
    var first := trace[i + 1].ledger;
    assert RetryKey(id, key) in first.retries && id in first.deliveries;
    assert first.retries[RetryKey(id, key)].scheduledAt == Some(answer.scheduledAt);
    RunIsAppendOnly(hash, trace, i + 1, j);
  }
}
