/** What holds of the tables after every transaction of every run. */
module Invariant {
  import opened Wrappers
  import opened Records
  import opened Transactions

  /** The most attempts a delivery can make: its own limit, or one more than the number of
      delays the retry policy knows. */
  function Cap(d: Delivery): int {
    Min(d.maxAttempts, 4)
  }

  /** The columns of one delivery row agree with each other. */
  ghost predicate RowInv(d: Delivery) {
    && 1 <= d.maxAttempts <= 10
    && 1 <= d.revision <= MAX_SAFE_WIRE_INTEGER
    && 0 <= d.attemptCount <= Cap(d)
    && (d.status == Queued ==> d.attemptCount == 0)
    && (d.status == RetryScheduled ==> 1 <= d.attemptCount < Cap(d))
    && (d.status !in {Queued, Failed} ==> 1 <= d.attemptCount)
    && (d.nextAttemptAt.Some? <==> Waiting(d.status))
    && (d.finalAt.Some? <==> Terminal(d.status))
    && (d.finalReason.Some? <==> Terminal(d.status))
    && (d.deliveredAt.Some? <==> d.status == Delivered)
    && (d.status in {Accepted, Delivered} ==> d.acceptedAt.Some?)
  }

  /** The status of attempt `n` of a delivery that has made `count` attempts. */
  predicate SlotStatus(status: DeliveryStatus, n: int, count: int, attempt: AttemptStatus) {
    if Terminal(status) then n < count ==> attempt != Dispatching
    else if n < count || Waiting(status) then attempt == TemporarilyFailed
    else if status == Attempting then attempt == Dispatching
    else attempt == Taken
  }

  predicate SlotRow(a: Attempt, attempt: AttemptId, status: DeliveryStatus, count: int) {
    && a.delivery == attempt.delivery
    && a.sequence == attempt.sequence
    && a.run == RunId(attempt)
    && SlotStatus(status, attempt.sequence, count, a.status)
    && (status == Attempting && a.status == Dispatching ==> a == NewAttempt(attempt, a.startedAt))
  }

  /** A delivery's attempts are numbered 1 to its attempt count, and at most the last is open. */
  ghost predicate SlotInv(
    attempts: map<AttemptId, Attempt>, id: DeliveryId, status: DeliveryStatus, count: int)
  {
    && (forall n :: AttemptId(id, n) in attempts <==> 1 <= n <= count)
    && (forall n | 1 <= n <= count ::
          SlotRow(attempts[AttemptId(id, n)], AttemptId(id, n), status, count))
  }

  ghost predicate ReceiptOf(receipts: map<ReceiptKey, Receipt>, k: ReceiptKey, id: DeliveryId) {
    k in receipts && receipts[k].delivery == id
  }

  function StatusAfter(verdict: Verdict): DeliveryStatus {
    if verdict == ReachedRecipient then Delivered else Failed
  }

  predicate ReceiptRow(d: Delivery, id: DeliveryId, k: ReceiptKey, r: Receipt) {
    && r.attempt.delivery == id
    && 1 <= r.attempt.sequence <= d.attemptCount
    && match k.kind
       case AcceptedReceipt => d.status == Accepted || Terminal(d.status)
       case FinalReceipt(verdict) =>
         && d.status == StatusAfter(verdict)
         && (verdict == ReachedRecipient ==> d.deliveredAt == Some(r.observedAt))
  }

  /** At most one acceptance and one verdict, and a delivered row has its verdict. */
  ghost predicate ReceiptInv(receipts: map<ReceiptKey, Receipt>, id: DeliveryId, d: Delivery) {
    && (forall k | ReceiptOf(receipts, k, id) :: ReceiptRow(d, id, k, receipts[k]))
    && (forall j, k | ReceiptOf(receipts, j, id) && ReceiptOf(receipts, k, id) ::
          j.kind.AcceptedReceipt? == k.kind.AcceptedReceipt? ==> j == k)
    && (d.status == Delivered ==>
          exists k :: ReceiptOf(receipts, k, id) && k.kind == FinalReceipt(ReachedRecipient))
  }

  /** The payload reports this outcome of the attempt. */
  predicate ReportsOutcome(payload: Payload, attempt: AttemptId, outcome: DispatchOutcome) {
    && payload.Dispatch?
    && payload.dispatch.delivery == attempt.delivery
    && payload.dispatch.attempt == attempt
    && payload.dispatch.outcome == outcome
  }

  predicate IsTemporaryFailure(payload: Payload, attempt: AttemptId) {
    ReportsOutcome(payload, attempt, TemporaryFailure)
  }

  /** The outcome of the last attempt that a delivery's status and reason say it had. */
  function ToldOutcome(d: Delivery): Option<DispatchOutcome> {
    if d.status == Accepted then Some(ProviderAccepted)
    else if d.status == DeliveryUnknown then Some(OutcomeUnknown)
    else if d.status == Failed && d.finalReason == Some(PermanentFailureReported) then
      Some(PermanentFailure)
    else if d.status == Failed && d.finalReason == Some(RetryExhausted) then Some(TemporaryFailure)
    else None
  }

  /** A committed observation says so too. */
  ghost predicate OutcomeInv(events: map<Key, ConsumedEvent>, id: DeliveryId, d: Delivery) {
    ToldOutcome(d).Some? ==>
      exists e | e in events ::
        ReportsOutcome(events[e].digest.payload, AttemptId(id, d.attemptCount), ToldOutcome(d).value)
  }

  ghost predicate FailedTemporarily(events: map<Key, ConsumedEvent>, attempt: AttemptId) {
    exists e | e in events :: IsTemporaryFailure(events[e].digest.payload, attempt)
  }

  /** The attempts that were followed by another, or are waiting to be. */
  function FailedThrough(d: Delivery): int {
    if Waiting(d.status) then d.attemptCount else d.attemptCount - 1
  }

  /** Each of the first attempts has a committed observation saying it failed temporarily. */
  ghost predicate HistoryInv(events: map<Key, ConsumedEvent>, id: DeliveryId, through: int) {
    forall n | 1 <= n <= through :: FailedTemporarily(events, AttemptId(id, n))
  }

  predicate RetryRow(r: Retry, revision: int, status: DeliveryStatus) {
    && r.sourceRevision < revision
    && (r.decision == Scheduled <==> r.scheduledAt.Some?)
    && (r.kind == Manual ==> r.decision == Scheduled)
    && (r.decision == Rejected ==> status == Failed)
  }

  /** Decisions were taken at different revisions, all below the current one. */
  ghost predicate RetryInv(
    retries: map<RetryKey, Retry>, id: DeliveryId, revision: int, status: DeliveryStatus)
  {
    && (forall k | RetryKey(id, k) in retries :: RetryRow(retries[RetryKey(id, k)], revision, status))
    && (forall j, k | RetryKey(id, j) in retries && RetryKey(id, k) in retries ::
          retries[RetryKey(id, j)].sourceRevision == retries[RetryKey(id, k)].sourceRevision
          ==> j == k)
  }

  /** The decision behind the current revision: it names the schedule, and an automatic one is
      the policy's answer to the last attempt's temporary failure. */
  predicate Explains(
    retries: map<RetryKey, Retry>, events: map<Key, ConsumedEvent>, id: DeliveryId, d: Delivery,
    key: Key)
  {
    && RetryKey(id, key) in retries
    && var r := retries[RetryKey(id, key)];
       && r.sourceRevision + 1 == d.revision
       && r.decision == Scheduled
       && r.scheduledAt == d.nextAttemptAt
       && (r.kind == Automatic ==>
             && key in events
             && IsTemporaryFailure(events[key].digest.payload, AttemptId(id, d.attemptCount))
             && r.scheduledAt == RetrySchedule(
                                   d.maxAttempts, d.attemptCount,
                                   events[key].digest.payload.dispatch))
  }

  ghost predicate ScheduleInv(
    retries: map<RetryKey, Retry>, events: map<Key, ConsumedEvent>, id: DeliveryId, d: Delivery)
  {
    d.status == RetryScheduled ==> exists k :: Explains(retries, events, id, d, k)
  }

  /** The retry rows of a delivery of one kind and decision. */
  ghost function Decisions(
    retries: map<RetryKey, Retry>, id: DeliveryId, kind: RetryKind, decision: Decision)
    : set<RetryKey>
  {
    set k | k in retries && k.delivery == id
            && retries[k].kind == kind && retries[k].decision == decision
  }

  ghost function ManualRetries(retries: map<RetryKey, Retry>, id: DeliveryId): nat {
    |Decisions(retries, id, Manual, Scheduled)|
  }

  ghost function AutomaticRetries(retries: map<RetryKey, Retry>, id: DeliveryId): nat {
    |Decisions(retries, id, Automatic, Scheduled)|
  }

  ghost function RejectedRetries(retries: map<RetryKey, Retry>, id: DeliveryId): nat {
    |Decisions(retries, id, Automatic, Rejected)|
  }

  /** The revision, in closed form, from the attempts made and the manual retries granted. */
  predicate RevisionIs(d: Delivery, manual: nat) {
    var base := 2 * d.attemptCount + manual;
    match d.status
    case Attempting => d.revision == base
    case Queued | RetryScheduled | Accepted | DeliveryUnknown => d.revision == base + 1
    case Delivered | Failed => d.revision == base + 1 || d.revision == base + 2
  }

  predicate DecisionCounts(d: Delivery, automatic: nat, rejected: nat) {
    && automatic <= 3
    && rejected <= (if d.status == Failed then 1 else 0)
    && (Waiting(d.status) ==> automatic == d.attemptCount)
    && (d.status in {Attempting, Accepted} ==> automatic == d.attemptCount - 1)
  }

  ghost predicate CountInv(retries: map<RetryKey, Retry>, id: DeliveryId, d: Delivery) {
    && RevisionIs(d, ManualRetries(retries, id))
    && DecisionCounts(d, AutomaticRetries(retries, id), RejectedRetries(retries, id))
  }

  ghost predicate DeliveryInv(s: Tables, id: DeliveryId)
    requires id in s.deliveries
  {
    var d := s.deliveries[id];
    && RowInv(d)
    && SlotInv(s.attempts, id, d.status, d.attemptCount)
    && ReceiptInv(s.receipts, id, d)
    && HistoryInv(s.events, id, FailedThrough(d))
    && OutcomeInv(s.events, id, d)
    && RetryInv(s.retries, id, d.revision, d.status)
    && ScheduleInv(s.retries, s.events, id, d)
    && CountInv(s.retries, id, d)
  }

  /** Evidence names existing deliveries, and lifecycle rows name consumed events. */
  ghost predicate Owned(s: Tables) {
    && (forall k | k in s.attempts :: k.delivery in s.deliveries)
    && (forall k | k in s.receipts :: s.receipts[k].delivery in s.deliveries)
    && (forall k | k in s.retries :: k.delivery in s.deliveries)
    && (forall k | k in s.lifecycle :: k in s.events)
  }

  /** An intent has its snapshot, its release and the one delivery its identity names. */
  ghost predicate IntentRow(hash: IntentId -> DeliveryId, s: Tables, k: IntentKey)
    requires k in s.intents
  {
    var digest := s.intents[k].digest;
    var id := hash(IntentId(k, digest));
    && digest.request.key == k
    && digest in s.snapshots
    && s.snapshots[digest].release in s.releases
    && id in s.deliveries
    && s.deliveries[id].intent == k
  }

  /** A delivery's identity is the one its intent derives. */
  ghost predicate DeliveryIdentity(hash: IntentId -> DeliveryId, s: Tables, id: DeliveryId)
    requires id in s.deliveries
  {
    var k := s.deliveries[id].intent;
    k in s.intents && id == hash(IntentId(k, s.intents[k].digest))
  }

  ghost predicate SnapshotIdentity(s: Tables, digest: RequestDigest) {
    digest.request.key in s.intents && s.intents[digest.request.key].digest == digest
  }

  /** Foreign keys, and the identities that creates derive. */
  ghost predicate Catalogue(hash: IntentId -> DeliveryId, s: Tables) {
    && Owned(s)
    && (forall k | k in s.intents :: IntentRow(hash, s, k))
    && (forall id | id in s.deliveries :: DeliveryIdentity(hash, s, id))
    && (forall g | g in s.snapshots :: SnapshotIdentity(s, g))
  }

  /** The columns that foreign keys and derived identities depend on stay as they are. */
  ghost predicate SameCatalogue(s: Tables, s': Tables) {
    && s'.releases == s.releases && s'.snapshots == s.snapshots && s'.intents == s.intents
    && s'.deliveries.Keys == s.deliveries.Keys
    && (forall id | id in s.deliveries :: s'.deliveries[id].intent == s.deliveries[id].intent)
    && (forall k | k in s'.attempts :: k in s.attempts || k.delivery in s.deliveries)
    && (forall k | k in s'.receipts ::
          (k in s.receipts && s'.receipts[k] == s.receipts[k])
          || s'.receipts[k].delivery in s.deliveries)
    && (forall k | k in s'.retries :: k in s.retries || k.delivery in s.deliveries)
    && (forall k | k in s.events :: k in s'.events)
    && (forall k | k in s'.lifecycle :: k in s.lifecycle || k in s'.events)
  }

  lemma CatalogueKept(hash: IntentId -> DeliveryId, s: Tables, s': Tables)
    requires Catalogue(hash, s) && SameCatalogue(s, s')
    ensures Catalogue(hash, s')
  {
    forall k | k in s'.intents ensures IntentRow(hash, s', k) {
      assert IntentRow(hash, s, k);
    }
    forall id | id in s'.deliveries ensures DeliveryIdentity(hash, s', id) {
      assert DeliveryIdentity(hash, s, id);
    }
    forall g | g in s'.snapshots ensures SnapshotIdentity(s', g) {
      assert SnapshotIdentity(s, g);
    }
  }

  ghost predicate Inv(hash: IntentId -> DeliveryId, s: Tables) {
    && Catalogue(hash, s)
    && forall id | id in s.deliveries :: DeliveryInv(s, id)
  }

  ghost predicate CollisionFree(hash: IntentId -> DeliveryId) {
    forall x, y :: hash(x) == hash(y) ==> x == y
  }

  const EMPTY := Tables(map[], map[], map[], map[], map[], map[], map[], map[], map[])

  lemma EmptyLedger(hash: IntentId -> DeliveryId)
    ensures Inv(hash, EMPTY)
  {
  }

  // What inserting or replacing a row of one delivery means for a delivery

  lemma SlotsElsewhere(
    attempts: map<AttemptId, Attempt>, attempt: AttemptId, a: Attempt,
    id: DeliveryId, status: DeliveryStatus, count: int)
    requires SlotInv(attempts, id, status, count) && attempt.delivery != id
    ensures SlotInv(attempts[attempt := a], id, status, count)
  {
  }

  /** Replacing the row of a delivery's own attempt. */
  lemma SlotsReplaced(
    attempts: map<AttemptId, Attempt>, attempt: AttemptId, a: Attempt,
    id: DeliveryId, from: DeliveryStatus, to: DeliveryStatus, count: int)
    requires SlotInv(attempts, id, from, count) && attempt.delivery == id && attempt in attempts
    requires SlotRow(a, attempt, to, count)
    requires Terminal(from) || (from in {Attempting, Accepted} && attempt.sequence == count)
             || (from in {Attempting, Accepted} && Terminal(to))
    requires Terminal(from) ==> to == from
    requires to in {RetryScheduled, Accepted} ==> attempt.sequence == count
    requires to == RetryScheduled || to == Accepted || Terminal(to)
    ensures SlotInv(attempts[attempt := a], id, to, count)
  {
    var attempts' := attempts[attempt := a];
    assert attempt == AttemptId(id, attempt.sequence);
    forall n | 1 <= n <= count ensures SlotRow(attempts'[AttemptId(id, n)], AttemptId(id, n), to, count) {
      assert SlotRow(attempts[AttemptId(id, n)], AttemptId(id, n), from, count);
    }
  }

  lemma SlotAppended(
    attempts: map<AttemptId, Attempt>, id: DeliveryId, status: DeliveryStatus, count: int, now: Time)
    requires SlotInv(attempts, id, status, count) && Waiting(status) && 0 <= count
    ensures var attempt := AttemptId(id, count + 1);
            && attempt !in attempts
            && SlotInv(attempts[attempt := NewAttempt(attempt, now)], id, Attempting, count + 1)
  {
    var attempts' := attempts[AttemptId(id, count + 1) := NewAttempt(AttemptId(id, count + 1), now)];
    forall n | 1 <= n <= count + 1
      ensures SlotRow(attempts'[AttemptId(id, n)], AttemptId(id, n), Attempting, count + 1)
    {
      if n <= count {
        assert SlotRow(attempts[AttemptId(id, n)], AttemptId(id, n), status, count);
      }
    }
  }

  /** Only the attempt in flight is dispatching. */
  lemma OpenSlotIsLast(
    attempts: map<AttemptId, Attempt>, attempt: AttemptId, id: DeliveryId, count: int)
    requires SlotInv(attempts, id, Attempting, count)
    requires attempt in attempts && attempt.delivery == id && attempts[attempt].status == Dispatching
    ensures attempt == AttemptId(id, count)
  {
    assert attempt == AttemptId(id, attempt.sequence);
    assert SlotRow(attempts[AttemptId(id, attempt.sequence)], attempt, Attempting, count);
  }

  /** Ending a delivery asks nothing of its attempts but that the earlier ones are closed. */
  lemma SlotsClosed(
    attempts: map<AttemptId, Attempt>, id: DeliveryId, from: DeliveryStatus, to: DeliveryStatus,
    count: int)
    requires SlotInv(attempts, id, from, count) && Terminal(to)
    ensures SlotInv(attempts, id, to, count)
  {
    forall n | 1 <= n <= count ensures SlotRow(attempts[AttemptId(id, n)], AttemptId(id, n), to, count) {
      assert SlotRow(attempts[AttemptId(id, n)], AttemptId(id, n), from, count);
    }
  }

  lemma ReceiptsElsewhere(
    receipts: map<ReceiptKey, Receipt>, key: ReceiptKey, r: Receipt, id: DeliveryId, d: Delivery)
    requires ReceiptInv(receipts, id, d) && key !in receipts && r.delivery != id
    ensures ReceiptInv(receipts[key := r], id, d)
  {
    var receipts' := receipts[key := r];
    assert forall k :: ReceiptOf(receipts', k, id) <==> ReceiptOf(receipts, k, id);
  }

  lemma ReceiptInserted(
    receipts: map<ReceiptKey, Receipt>, key: ReceiptKey, r: Receipt, id: DeliveryId,
    d: Delivery, d': Delivery)
    requires ReceiptInv(receipts, id, d) && d.status in {Attempting, Accepted}
    requires key !in receipts && r.delivery == id && ReceiptRow(d', id, key, r)
    requires d'.attemptCount == d.attemptCount
    requires key.kind.AcceptedReceipt? ==> d.status == Attempting && d'.status == Accepted
    requires key.kind.FinalReceipt? ==> Terminal(d'.status)
    ensures ReceiptInv(receipts[key := r], id, d')
  {
    var receipts' := receipts[key := r];
    assert forall k :: ReceiptOf(receipts', k, id) <==> ReceiptOf(receipts, k, id) || k == key;
  }

  /** Receipts stay in order when their delivery moves on without a new one. */
  lemma ReceiptsKept(
    receipts: map<ReceiptKey, Receipt>, id: DeliveryId, d: Delivery, d': Delivery)
    requires ReceiptInv(receipts, id, d) && !Terminal(d.status)
    requires d.attemptCount <= d'.attemptCount && d'.status != Delivered
    requires d.status == Accepted ==> Terminal(d'.status)
    ensures ReceiptInv(receipts, id, d')
  {
  }

  lemma HistoryGrows(
    events: map<Key, ConsumedEvent>, events': map<Key, ConsumedEvent>, id: DeliveryId, through: int)
    requires HistoryInv(events, id, through)
    requires forall e | e in events :: e in events' && events'[e] == events[e]
    ensures HistoryInv(events', id, through)
  {
    forall n | 1 <= n <= through ensures FailedTemporarily(events', AttemptId(id, n)) {
      assert FailedTemporarily(events, AttemptId(id, n));
    }
  }

  lemma OutcomeKept(
    events: map<Key, ConsumedEvent>, events': map<Key, ConsumedEvent>, id: DeliveryId, d: Delivery)
    requires OutcomeInv(events, id, d)
    requires forall e | e in events :: e in events' && events'[e] == events[e]
    ensures OutcomeInv(events', id, d)
  {
  }

  lemma ScheduleKept(
    retries: map<RetryKey, Retry>, events: map<Key, ConsumedEvent>, events': map<Key, ConsumedEvent>,
    id: DeliveryId, d: Delivery)
    requires ScheduleInv(retries, events, id, d)
    requires forall e | e in events :: e in events' && events'[e] == events[e]
    ensures ScheduleInv(retries, events', id, d)
  {
    if d.status == RetryScheduled {
      var k :| Explains(retries, events, id, d, k);
      assert Explains(retries, events', id, d, k);
    }
  }

  lemma NothingToExplain(
    retries: map<RetryKey, Retry>, events: map<Key, ConsumedEvent>, id: DeliveryId, d: Delivery)
    requires d.status != RetryScheduled
    ensures ScheduleInv(retries, events, id, d)
  {
  }

  lemma NothingTold(events: map<Key, ConsumedEvent>, id: DeliveryId, d: Delivery)
    requires ToldOutcome(d).None?
    ensures OutcomeInv(events, id, d)
  {
  }

  /** A delivery none of whose rows changed. */
  lemma Unchanged(s: Tables, s': Tables, id: DeliveryId)
    requires id in s.deliveries && DeliveryInv(s, id)
    requires id in s'.deliveries && s'.deliveries[id] == s.deliveries[id]
    requires s'.attempts == s.attempts && s'.receipts == s.receipts
    requires s'.retries == s.retries && s'.events == s.events
    ensures DeliveryInv(s', id)
  {
  }

  lemma RetriesElsewhere(
    retries: map<RetryKey, Retry>, key: RetryKey, r: Retry, events: map<Key, ConsumedEvent>,
    id: DeliveryId, d: Delivery)
    requires RetryInv(retries, id, d.revision, d.status)
    requires ScheduleInv(retries, events, id, d) && CountInv(retries, id, d)
    requires key.delivery != id
    ensures RetryInv(retries[key := r], id, d.revision, d.status)
    ensures ScheduleInv(retries[key := r], events, id, d) && CountInv(retries[key := r], id, d)
  {
    var retries' := retries[key := r];
    if d.status == RetryScheduled {
      var k :| Explains(retries, events, id, d, k);
      assert Explains(retries', events, id, d, k);
    }
    forall kind, decision
      ensures Decisions(retries', id, kind, decision) == Decisions(retries, id, kind, decision)
    {
    }
  }

  /** Decisions stay below a revision that rises. */
  lemma RevisionRises(
    retries: map<RetryKey, Retry>, id: DeliveryId, revision: int, status: DeliveryStatus,
    status': DeliveryStatus)
    requires RetryInv(retries, id, revision, status) && status != Failed
    ensures RetryInv(retries, id, revision + 1, status')
  {
    forall k | RetryKey(id, k) in retries
      ensures RetryRow(retries[RetryKey(id, k)], revision + 1, status')
    {
      assert RetryRow(retries[RetryKey(id, k)], revision, status);
    }
  }

  lemma RetryInserted(
    retries: map<RetryKey, Retry>, key: RetryKey, r: Retry, id: DeliveryId, revision: int,
    status: DeliveryStatus, status': DeliveryStatus)
    requires RetryInv(retries, id, revision, status)
    requires status != Failed
    requires key !in retries && key.delivery == id
    requires r.sourceRevision == revision && RetryRow(r, revision + 1, status')
    ensures RetryInv(retries[key := r], id, revision + 1, status')
  {
    assert key == RetryKey(id, key.key);
  }

  lemma DecisionInserted(
    retries: map<RetryKey, Retry>, key: RetryKey, r: Retry, kind: RetryKind, decision: Decision)
    requires key !in retries
    ensures |Decisions(retries[key := r], key.delivery, kind, decision)| ==
            |Decisions(retries, key.delivery, kind, decision)|
            + if r.kind == kind && r.decision == decision then 1 else 0
  {
    var before := Decisions(retries, key.delivery, kind, decision);
    var after := Decisions(retries[key := r], key.delivery, kind, decision);
    if r.kind == kind && r.decision == decision {
      assert after == before + {key};
    } else {
      assert after == before;
    }
  }

  lemma CountsInserted(retries: map<RetryKey, Retry>, key: RetryKey, r: Retry)
    requires key !in retries
    ensures var retries', id := retries[key := r], key.delivery;
            && ManualRetries(retries', id) ==
               ManualRetries(retries, id) + (if r.kind == Manual && r.decision == Scheduled then 1 else 0)
            && AutomaticRetries(retries', id) ==
               AutomaticRetries(retries, id) + (if r.kind == Automatic && r.decision == Scheduled then 1 else 0)
            && RejectedRetries(retries', id) ==
               RejectedRetries(retries, id) + (if r.kind == Automatic && r.decision == Rejected then 1 else 0)
  {
    DecisionInserted(retries, key, r, Manual, Scheduled);
    DecisionInserted(retries, key, r, Automatic, Scheduled);
    DecisionInserted(retries, key, r, Automatic, Rejected);
  }
}
