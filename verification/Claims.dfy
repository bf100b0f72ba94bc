/** Claiming due work: which delivery a claim picks, when it fails, and what it writes. */
module Claims {
  import opened Wrappers
  import opened Records
  import opened Transactions
  import opened Refusals
  import opened Invariant
  import opened System
  import opened Protocol
  import opened Evidence

  // Which delivery is picked

  /** The delivery waits, its time has come, and no other transaction holds its row. */
  predicate Ready(s: Tables, id: DeliveryId, now: Time, locked: set<DeliveryId>) {
    && id in s.deliveries && id !in locked
    && (s.deliveries[id].status == Queued || s.deliveries[id].status == RetryScheduled)
    && s.deliveries[id].nextAttemptAt.Some? && s.deliveries[id].nextAttemptAt.value <= now
  }

  /** Of all that are ready its time came first, and of those whose time came then it has the
      smallest identity. */
  ghost predicate Earliest(s: Tables, id: DeliveryId, now: Time, locked: set<DeliveryId>) {
    && Ready(s, id, now, locked)
    && forall other | Ready(s, other, now, locked) ::
         var x, y := s.deliveries[id].nextAttemptAt.value, s.deliveries[other].nextAttemptAt.value;
         x < y || (x == y && id <= other)
  }

  /** Whatever is ready has an attempt left and all its content: nothing else keeps it back. */
  lemma ReadyExactlyWhen(
    hash: IntentId -> DeliveryId, s: Tables, id: DeliveryId, now: Time, locked: set<DeliveryId>)
    requires Inv(hash, s)
    ensures Due(s, id, now, locked) <==> Ready(s, id, now, locked)
    ensures id in s.deliveries ==> Joined(s, s.deliveries[id].intent)
  {
    hide SlotInv, ReceiptInv, HistoryInv, OutcomeInv, RetryInv, ScheduleInv, CountInv;
    if id in s.deliveries {
      assert DeliveryInv(s, id);
      assert DeliveryIdentity(hash, s, id) && IntentRow(hash, s, s.deliveries[id].intent);
    }
  }

  lemma EarliestExactlyWhen(
    hash: IntentId -> DeliveryId, s: Tables, id: DeliveryId, now: Time, locked: set<DeliveryId>)
    requires Inv(hash, s)
    ensures FirstDue(s, id, now, locked) <==> Earliest(s, id, now, locked)
  {
    hide Inv, Due;
    forall other ensures Due(s, other, now, locked) <==> Ready(s, other, now, locked) {
      ReadyExactlyWhen(hash, s, other, now, locked);
    }
  }

  lemma EarliestIsUnique(
    s: Tables, id: DeliveryId, id': DeliveryId, now: Time, locked: set<DeliveryId>)
    requires Earliest(s, id, now, locked) && Earliest(s, id', now, locked)
    ensures id == id'
  {
  }

  // When it cannot be claimed

  /** Something the request needs was sealed under another key. */
  predicate SealedElsewhere(s: Tables, id: DeliveryId, keyReference: string)
    requires id in s.deliveries && Joined(s, s.deliveries[id].intent)
  {
    var intent := s.intents[s.deliveries[id].intent];
    var snapshot := s.snapshots[intent.digest];
    !(intent.recipient.keyReference == snapshot.subject.keyReference == snapshot.text.keyReference
      == snapshot.html.keyReference == keyReference)
  }

  predicate OutOfRevisions(s: Tables, id: DeliveryId)
    requires id in s.deliveries
  {
    s.deliveries[id].revision >= LAST_REVISION
  }

  predicate Unclaimable(s: Tables, id: DeliveryId, keyReference: string)
    requires id in s.deliveries && Joined(s, s.deliveries[id].intent)
  {
    OutOfRevisions(s, id) || SealedElsewhere(s, id, keyReference)
  }

  // What a claim writes

  /** The delivery counts one more attempt, which is in flight. */
  predicate CountsAttempt(d: Delivery, d': Delivery, now: Time) {
    && d'.status == Attempting && d'.revision == d.revision + 1
    && d'.attemptCount == d.attemptCount + 1 && d'.maxAttempts == d.maxAttempts
    && d'.nextAttemptAt.None? && d'.updatedAt == now
    && d'.intent == d.intent && d'.createdAt == d.createdAt
    && d'.acceptedAt == d.acceptedAt && d'.deliveredAt == d.deliveredAt
    && d'.finalAt == d.finalAt && d'.finalReason == d.finalReason
  }

  /** Nothing is known of the attempt but who it is and when it started. */
  predicate NewlyStarted(a: Attempt, id: DeliveryId, sequence: int, now: Time) {
    && a.delivery == id && a.sequence == sequence && a.run == RunId(AttemptId(id, sequence))
    && a.status == Dispatching && a.startedAt == now && a.completedAt.None?
    && a.provider.None? && a.remoteId.None? && a.remoteSource.None? && a.remoteDigest.None?
    && a.failureCode.None? && a.failureClass.None?
  }

  /** The request names the new attempt, which is its idempotency key, and holds what the rows of
      its delivery hold. */
  predicate Requests(q: DispatchRequest, s: Tables, id: DeliveryId, sequence: int)
    requires id in s.deliveries && Joined(s, s.deliveries[id].intent)
  {
    var intent := s.intents[s.deliveries[id].intent];
    var snapshot := s.snapshots[intent.digest];
    && q.delivery == id && q.attempt == AttemptId(id, sequence) && q.run == RunId(q.attempt)
    && q.idempotencyKey == AttemptId(id, sequence)
    && q.address == intent.recipient.plaintext && q.locale == intent.locale
    && q.correlation == intent.correlation && q.release == snapshot.release
    && q.subject == snapshot.subject.plaintext && q.text == snapshot.text.plaintext
    && q.html == snapshot.html.plaintext && q.contentDigest == snapshot.contentDigest
  }

  ghost predicate Hands(s: Tables, s': Tables, id: DeliveryId, now: Time, q: DispatchRequest)
    requires id in s.deliveries && Joined(s, s.deliveries[id].intent)
  {
    var sequence := s.deliveries[id].attemptCount + 1;
    var attempt := AttemptId(id, sequence);
    && id in s'.deliveries && CountsAttempt(s.deliveries[id], s'.deliveries[id], now)
    && attempt !in s.attempts && attempt in s'.attempts
    && NewlyStarted(s'.attempts[attempt], id, sequence, now)
    && Requests(q, s, id, sequence)
    && s'.deliveries == s.deliveries[id := s'.deliveries[id]]
    && s'.attempts == s.attempts[attempt := s'.attempts[attempt]]
    && s' == s.(deliveries := s'.deliveries, attempts := s'.attempts)
  }

  /** What claiming a given delivery comes to. */
  ghost predicate ClaimsRow(
    s: Tables, keyReference: string, id: DeliveryId, now: Time,
    answer: Result<(Tables, Option<DispatchRequest>)>)
    requires id in s.deliveries && Joined(s, s.deliveries[id].intent)
  {
    if OutOfRevisions(s, id) then answer == Failure(Conflict)
    else if SealedElsewhere(s, id, keyReference) then answer == Failure(Validation)
    else
      && answer.Success? && answer.value.1.Some?
      && Hands(s, answer.value.0, id, now, answer.value.1.value)
  }

  lemma NextAttemptIsFree(
    hash: IntentId -> DeliveryId, s: Tables, id: DeliveryId, now: Time, locked: set<DeliveryId>)
    requires Inv(hash, s) && Ready(s, id, now, locked)
    ensures AttemptId(id, s.deliveries[id].attemptCount + 1) !in s.attempts
    ensures s.deliveries[id].attemptCount < s.deliveries[id].maxAttempts
  {
    hide Catalogue, ReceiptInv, HistoryInv, OutcomeInv, RetryInv, ScheduleInv, CountInv;
    assert DeliveryInv(s, id);
  }

  lemma RowIsClaimed(s: Tables, keyReference: string, id: DeliveryId, now: Time)
    requires id in s.deliveries && Joined(s, s.deliveries[id].intent)
    requires AttemptId(id, s.deliveries[id].attemptCount + 1) !in s.attempts
    requires s.deliveries[id].attemptCount < s.deliveries[id].maxAttempts
    ensures ClaimsRow(s, keyReference, id, now, ClaimAnswer(s, keyReference, id, now))
  {
  }

  lemma RowClaimDecides(
    hash: IntentId -> DeliveryId, s: Tables, keyReference: string, id: DeliveryId, now: Time,
    locked: set<DeliveryId>)
    requires Inv(hash, s) && Ready(s, id, now, locked)
    ensures Joined(s, s.deliveries[id].intent)
    ensures ClaimsRow(s, keyReference, id, now, ClaimAnswer(s, keyReference, id, now))
  {
    hide Inv, ClaimsRow, ClaimAnswer;
    ReadyExactlyWhen(hash, s, id, now, locked);
    NextAttemptIsFree(hash, s, id, now, locked);
    RowIsClaimed(s, keyReference, id, now);
  }

  // The claim

  lemma EarliestIsReady(s: Tables, id: DeliveryId, now: Time, locked: set<DeliveryId>)
    requires Earliest(s, id, now, locked)
    ensures Ready(s, id, now, locked) && id in s.deliveries
  {
  }

  lemma ClaimedFirst(
    s: Tables, keyReference: string, now: Time, locked: set<DeliveryId>,
    answer: Result<(Tables, Option<DispatchRequest>)>, some: DeliveryId)
    returns (id: DeliveryId)
    requires ClaimsDue(s, keyReference, now, locked, answer) && Due(s, some, now, locked)
    ensures FirstDue(s, id, now, locked)
    ensures id in s.deliveries && Joined(s, s.deliveries[id].intent)
    ensures answer == ClaimAnswer(s, keyReference, id, now)
  {
    hide ClaimAnswer;
    id :| FirstDue(s, id, now, locked) && answer == ClaimAnswer(s, keyReference, id, now);
  }

  /** In every run a claim answers nothing exactly when no delivery is ready. Otherwise it comes to
      what claiming the earliest one comes to, whatever else is ready: it fails when that one has
      no revisions left or its content cannot be revealed, and hands out its next attempt when
      it can. */
  lemma ClaimIsExact(
    hash: IntentId -> DeliveryId, trace: seq<World>, t: nat, keyReference: string, now: Time,
    locked: set<DeliveryId>, answer: Result<(Tables, Option<DispatchRequest>)>)
    requires Run(hash, trace) && t < |trace|
    requires ClaimsDue(trace[t].ledger, keyReference, now, locked, answer)
    ensures var s := trace[t].ledger;
            if exists id :: Ready(s, id, now, locked) then
              exists id :: && Earliest(s, id, now, locked)
                           && Joined(s, s.deliveries[id].intent)
                           && ClaimsRow(s, keyReference, id, now, answer)
            else
              answer == Success((s, None))
  {
    hide Run, Inv, Due, FirstDue, Ready, Earliest, ClaimsRow, ClaimAnswer, LogInv, EventInv, WorkerInv;
    hide Separate;
    RunKeepsWorldInv(hash, trace, t);
    var s := trace[t].ledger;
    forall id
      ensures Due(s, id, now, locked) <==> Ready(s, id, now, locked)
      ensures FirstDue(s, id, now, locked) <==> Earliest(s, id, now, locked)
    {
      ReadyExactlyWhen(hash, s, id, now, locked);
      EarliestExactlyWhen(hash, s, id, now, locked);
    }
    if some :| Ready(s, some, now, locked) {
      assert Due(s, some, now, locked);
      var id := ClaimedFirst(s, keyReference, now, locked, answer, some);
      EarliestIsReady(s, id, now, locked);
      RowClaimDecides(hash, s, keyReference, id, now, locked);
    }
  }

  /** The claim transaction fails exactly when the delivery that comes first among those that are
      ready cannot be claimed, whatever else is ready. */
  lemma ClaimFailsExactlyWhen(
    hash: IntentId -> DeliveryId, trace: seq<World>, t: nat, keyReference: string, now: Time,
    locked: set<DeliveryId>, answer: Result<(Tables, Option<DispatchRequest>)>)
    requires Run(hash, trace) && t < |trace|
    requires ClaimsDue(trace[t].ledger, keyReference, now, locked, answer)
    ensures var s := trace[t].ledger;
            answer.Failure? <==>
              exists id :: && Earliest(s, id, now, locked) && Joined(s, s.deliveries[id].intent)
                           && Unclaimable(s, id, keyReference)
  {
    hide Run, Joined, Hands, SealedElsewhere, Earliest;
    ClaimIsExact(hash, trace, t, keyReference, now, locked, answer);
    var s := trace[t].ledger;
    forall id, id' | Earliest(s, id, now, locked) && Earliest(s, id', now, locked) ensures id == id' {
      EarliestIsUnique(s, id, id', now, locked);
    }
    forall id | Earliest(s, id, now, locked) ensures Ready(s, id, now, locked) {
      EarliestIsReady(s, id, now, locked);
    }
  }
}
