/** How the tables may change from one committed transaction to the next: rows are never lost,
    evidence is never rewritten, and each delivery only moves forward. */
module Evolution {
  import opened Wrappers
  import opened Records
  import opened Transactions
  import opened Invariant
  import opened Preservation

  /** Everything that can run one transaction against the ledger. */
  datatype Action =
    | ObserveEvent(envelope: Envelope)
    | ClaimDue(keyReference: string, now: Time, locked: set<DeliveryId>)
    | RetryNow(id: DeliveryId, revision: int, key: Key, requestedBy: string, now: Time)
    | Create(request: IntentRequest, rendered: Rendered, keyReference: string, now: Time)

  /** The tables after a transaction: what it committed, or `s` when it failed. */
  function After<A>(s: Tables, answer: Result<(Tables, A)>): Tables {
    if answer.Success? then answer.value.0 else s
  }

  ghost predicate Step(hash: IntentId -> DeliveryId, s: Tables, action: Action, s': Tables) {
    match action
    case ObserveEvent(e) => s' == (if Apply(s, e).Success? then Apply(s, e).value else s)
    case ClaimDue(keyReference, now, locked) =>
      exists answer :: ClaimsDue(s, keyReference, now, locked, answer) && s' == After(s, answer)
    case RetryNow(id, revision, key, requestedBy, now) =>
      s' == After(s, RequestManualRetry(s, id, revision, key, requestedBy, now))
    case Create(request, rendered, keyReference, now) =>
      s' == After(s, CreateIntent(s, hash, request, rendered, keyReference, now))
  }

  lemma PickedClaim(
    s: Tables, keyReference: string, now: Time, locked: set<DeliveryId>, s': Tables)
    returns (id: DeliveryId, request: DispatchRequest)
    requires s' != s
    requires exists answer :: ClaimsDue(s, keyReference, now, locked, answer) && s' == After(s, answer)
    ensures FirstDue(s, id, now, locked)
    ensures ClaimRow(s, keyReference, id, now) == Success((s', request))
  {
    var answer :| ClaimsDue(s, keyReference, now, locked, answer) && s' == After(s, answer);
    id :| FirstDue(s, id, now, locked) && answer == ClaimAnswer(s, keyReference, id, now);
    request := ClaimRow(s, keyReference, id, now).value.1;
  }

  lemma StepKeepsInv(hash: IntentId -> DeliveryId, s: Tables, action: Action, s': Tables)
    requires Inv(hash, s) && Step(hash, s, action, s')
    ensures Inv(hash, s')
  {
    hide Inv;
    if s' != s {
      match action
      case ObserveEvent(e) => ApplyKeepsInv(hash, s, e, s');
      case ClaimDue(keyReference, now, locked) =>
        var id, request := PickedClaim(s, keyReference, now, locked, s');
        ClaimKeepsInv(hash, s, keyReference, id, now, locked, s', request);
      case RetryNow(id, revision, key, requestedBy, now) =>
        var answer := RequestManualRetry(s, id, revision, key, requestedBy, now).value.1;
        ManualRetryKeepsInv(hash, s, id, revision, key, requestedBy, now, s', answer);
      case Create(request, rendered, keyReference, now) =>
        var receipt := CreateIntent(s, hash, request, rendered, keyReference, now).value.1;
        CreateKeepsInv(hash, s, request, rendered, keyReference, now, s', receipt);
    }
  }

  // Forward motion

  /** How many more times the delivery's status can change. */
  function Rank(d: Delivery): int {
    match d.status
    case Queued => 9
    case Attempting => 10 - 2 * d.attemptCount
    case RetryScheduled => 9 - 2 * d.attemptCount
    case Accepted => 1
    case Delivered | Failed | DeliveryUnknown => 0
  }

  /** A row after any number of transactions. A terminal row never changes again. */
  ghost predicate Progress(d: Delivery, d': Delivery) {
    && d'.intent == d.intent
    && d'.maxAttempts == d.maxAttempts && d'.createdAt == d.createdAt
    && d.attemptCount <= d'.attemptCount
    && d.revision <= d'.revision
    && Rank(d') <= Rank(d)
    && (Terminal(d.status) ==> d' == d)
    && (d'.status != d.status ==> Rank(d') < Rank(d))
  }

  /** A row after one transaction. */
  ghost predicate Moves(d: Delivery, d': Delivery) {
    && Progress(d, d')
    && (d' == d || d'.revision == d.revision + 1)
    && d'.attemptCount <= d.attemptCount + 1
  }

  /** An attempt row keeps its identity and start. */
  predicate SameAttempt(a: Attempt, a': Attempt) {
    a'.delivery == a.delivery && a'.sequence == a.sequence && a'.run == a.run
    && a'.startedAt == a.startedAt
  }

  ghost predicate Contains<K, V>(after: map<K, V>, before: map<K, V>) {
    forall k | k in before :: k in after && after[k] == before[k]
  }

  /** Evidence and catalogue rows are immutable. */
  ghost predicate AppendsEvidence(s: Tables, s': Tables) {
    && Contains(s'.releases, s.releases)
    && Contains(s'.snapshots, s.snapshots)
    && Contains(s'.intents, s.intents)
    && Contains(s'.receipts, s.receipts)
    && Contains(s'.retries, s.retries)
    && Contains(s'.events, s.events)
    && Contains(s'.lifecycle, s.lifecycle)
  }

  ghost predicate AppendOnly(s: Tables, s': Tables) {
    && AppendsEvidence(s, s')
    && (forall k | k in s.attempts :: k in s'.attempts && SameAttempt(s.attempts[k], s'.attempts[k]))
    && (forall id | id in s.deliveries ::
          id in s'.deliveries && Progress(s.deliveries[id], s'.deliveries[id]))
  }

  lemma SameAttemptComposes(a: Attempt, b: Attempt, c: Attempt)
    requires SameAttempt(a, b) && SameAttempt(b, c)
    ensures SameAttempt(a, c)
  {
  }

  lemma ProgressComposes(a: Delivery, b: Delivery, c: Delivery)
    requires Progress(a, b) && Progress(b, c)
    ensures Progress(a, c)
  {
  }

  lemma AppendOnlyComposes(s: Tables, s': Tables, s'': Tables)
    requires AppendOnly(s, s') && AppendOnly(s', s'')
    ensures AppendOnly(s, s'')
  {
    hide Progress, SameAttempt;
    forall id | id in s.deliveries
      ensures id in s''.deliveries && Progress(s.deliveries[id], s''.deliveries[id])
    {
      ProgressComposes(s.deliveries[id], s'.deliveries[id], s''.deliveries[id]);
    }
    forall k | k in s.attempts
      ensures k in s''.attempts && SameAttempt(s.attempts[k], s''.attempts[k])
    {
      SameAttemptComposes(s.attempts[k], s'.attempts[k], s''.attempts[k]);
    }
  }

  /** One transaction moves each delivery it changes by one revision, and loses nothing. */
  ghost predicate Advances(s: Tables, s': Tables) {
    && AppendsEvidence(s, s')
    && (forall k | k in s.attempts :: k in s'.attempts && SameAttempt(s.attempts[k], s'.attempts[k]))
    && (forall id | id in s.deliveries ::
          id in s'.deliveries && Moves(s.deliveries[id], s'.deliveries[id]))
  }

  lemma ObservedRowMoves(d: Delivery, p: DispatchObserved)
    requires RowInv(d) && d.status == Attempting
    ensures Moves(d, ObservedRow(d, p))
  {
  }

  lemma ConcludedMoves(d: Delivery, p: ReceiptObserved)
    requires RowInv(d) && d.status in {Attempting, Accepted}
    ensures Moves(d, Concluded(d, p))
  {
  }

  lemma CancelledMoves(d: Delivery, e: Envelope, p: LifecycleObserved)
    requires RowInv(d) && Waiting(d.status)
    ensures Moves(d, CancelledRow(d, e, p))
  {
  }

  lemma ClaimedMoves(d: Delivery, now: Time)
    requires RowInv(d) && Waiting(d.status) && d.attemptCount < d.maxAttempts
    ensures Moves(d, ClaimedRow(d, now))
  {
  }

  lemma CommitAdvances(s: Tables, e: Envelope, p: DispatchObserved)
    requires Matched(s, p.delivery, p.attempt) && !EvidenceClashes(s, e, p)
    requires RowInv(s.deliveries[p.delivery]) && s.deliveries[p.delivery].status == Attempting
    ensures Advances(s, CommitOutcome(s, e, p))
  {
    hide RowInv, ObservedRow, AutomaticDecision;
    ObservedRowMoves(s.deliveries[p.delivery], p);
  }

  lemma LateFills(s: Tables, e: Envelope, p: DispatchObserved, s': Tables)
    requires ApplyDispatch(s, e, p) == Success(s') && e.id !in s.events && Matched(s, p.delivery, p.attempt)
    requires s.deliveries[p.delivery].status != Attempting
    ensures Advances(s, s')
  {
    hide HasReceipt, LateObservationIsCompatible, CommitOutcome, EvidenceClashes, Coalesce;
  }

  lemma DispatchAdvances(hash: IntentId -> DeliveryId, s: Tables, e: Envelope, p: DispatchObserved, s': Tables)
    requires Inv(hash, s) && ApplyDispatch(s, e, p) == Success(s')
    ensures Advances(s, s')
  {
    hide Catalogue, SlotInv, ReceiptInv, HistoryInv, RetryInv, ScheduleInv, CountInv, OutcomeInv;
    hide CommitOutcome, EvidenceClashes, Absorbed, HasReceipt, LateObservationIsCompatible;
    if e.id !in s.events {
      if s.deliveries[p.delivery].status == Attempting {
        assert DeliveryInv(s, p.delivery);
        CommitAdvances(ClaimEvent(s, e, p.observedAt).tables, e, p);
      } else {
        LateFills(s, e, p, s');
      }
    }
  }

  lemma ReceiptAdvances(hash: IntentId -> DeliveryId, s: Tables, e: Envelope, p: ReceiptObserved, s': Tables)
    requires Inv(hash, s) && ApplyReceipt(s, e, p) == Success(s')
    ensures Advances(s, s')
  {
    hide Catalogue, SlotInv, ReceiptInv, HistoryInv, RetryInv, ScheduleInv, CountInv;
    if ClaimEvent(s, e, p.observedAt).Admitted? && ReceiptKeyOf(p) !in s.receipts {
      assert DeliveryInv(s, p.delivery);
      ConcludedMoves(s.deliveries[p.delivery], p);
    }
  }

  lemma LifecycleAdvances(hash: IntentId -> DeliveryId, s: Tables, e: Envelope, p: LifecycleObserved, s': Tables)
    requires Inv(hash, s) && ApplyLifecycle(s, e, p) == Success(s')
    ensures Advances(s, s')
  {
    hide Catalogue, SlotInv, ReceiptInv, HistoryInv, RetryInv, ScheduleInv, CountInv;
    if ClaimEvent(s, e, p.observedAt).Admitted? {
      var s1 := ClaimEvent(s, e, p.observedAt).tables;
      forall id | id in s.deliveries
        ensures id in s'.deliveries && Moves(s.deliveries[id], s'.deliveries[id])
      {
        assert DeliveryInv(s, id);
        if CancelledBy(s1, id, e.source, p) {
          CancelledMoves(s.deliveries[id], e, p);
        }
      }
    }
  }

  lemma ApplyAdvances(hash: IntentId -> DeliveryId, s: Tables, e: Envelope, s': Tables)
    requires Inv(hash, s) && Apply(s, e) == Success(s')
    ensures Advances(s, s')
  {
    hide Inv, Advances, ApplyDispatch, ApplyReceipt, ApplyLifecycle;
    match e.payload
    case Dispatch(p) => DispatchAdvances(hash, s, e, p, s');
    case Authoritative(p) => ReceiptAdvances(hash, s, e, p, s');
    case Invitation(p) => LifecycleAdvances(hash, s, e, p, s');
  }

  lemma RetryAdvances(
    hash: IntentId -> DeliveryId, s: Tables, id: DeliveryId, revision: int, key: Key,
    requestedBy: string, now: Time, s': Tables)
    requires Inv(hash, s) && s' != s
    requires s' == After(s, RequestManualRetry(s, id, revision, key, requestedBy, now))
    ensures Advances(s, s')
  {
    hide Catalogue, SlotInv, ReceiptInv, HistoryInv, RetryInv, ScheduleInv, CountInv;
  }

  lemma CreateAdvances(
    hash: IntentId -> DeliveryId, s: Tables, request: IntentRequest, rendered: Rendered,
    keyReference: string, now: Time, s': Tables)
    requires Inv(hash, s) && s' != s
    requires s' == After(s, CreateIntent(s, hash, request, rendered, keyReference, now))
    ensures Advances(s, s')
  {
    hide Catalogue, SlotInv, ReceiptInv, HistoryInv, RetryInv, ScheduleInv, CountInv;
  }

  lemma StepAdvances(hash: IntentId -> DeliveryId, s: Tables, action: Action, s': Tables)
    requires Inv(hash, s) && Step(hash, s, action, s')
    ensures Advances(s, s')
  {
    hide Catalogue, SlotInv, ReceiptInv, HistoryInv, RetryInv, ScheduleInv, CountInv;
    hide Apply, RequestManualRetry, CreateIntent, ClaimsDue;
    if s' == s {
    } else {
      match action
      case ObserveEvent(e) => ApplyAdvances(hash, s, e, s');
      case ClaimDue(keyReference, now, locked) =>
        var id, request := PickedClaim(s, keyReference, now, locked, s');
        assert DeliveryInv(s, id);
        ClaimedMoves(s.deliveries[id], now);
      case RetryNow(id, revision, key, requestedBy, now) =>
        RetryAdvances(hash, s, id, revision, key, requestedBy, now, s');
      case Create(request, rendered, keyReference, now) =>
        CreateAdvances(hash, s, request, rendered, keyReference, now, s');
    }
  }
}
