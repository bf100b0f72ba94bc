/** Every transaction that commits keeps the ledger invariant. */
module Preservation {
  import opened Wrappers
  import opened Records
  import opened Transactions
  import opened Invariant

  lemma ClaimEventKeepsDelivery(s: Tables, e: Envelope, at: Time, id: DeliveryId)
    requires ClaimEvent(s, e, at).Admitted? && id in s.deliveries && DeliveryInv(s, id)
    ensures DeliveryInv(ClaimEvent(s, e, at).tables, id)
  {
    var events', d := s.events[e.id := ConsumedEvent(Digest(e), at)], s.deliveries[id];
    HistoryGrows(s.events, events', id, FailedThrough(d));
    OutcomeKept(s.events, events', id, d);
    ScheduleKept(s.retries, s.events, events', id, d);
  }

  /** Recording an event touches no delivery. */
  lemma ClaimEventKeepsInv(hash: IntentId -> DeliveryId, s: Tables, e: Envelope, at: Time, s1: Tables)
    requires Inv(hash, s) && ClaimEvent(s, e, at) == Admitted(s1)
    ensures Inv(hash, s1)
  {
    hide Catalogue, DeliveryInv;
    CatalogueKept(hash, s, s1);
    forall id | id in s1.deliveries ensures DeliveryInv(s1, id) {
      ClaimEventKeepsDelivery(s, e, at, id);
    }
  }

  lemma AttemptBelongs(hash: IntentId -> DeliveryId, s: Tables, id: DeliveryId, attempt: AttemptId)
    requires Inv(hash, s) && Matched(s, id, attempt)
    ensures attempt.delivery == id
    ensures SlotRow(s.attempts[attempt], attempt, s.deliveries[id].status,
                    s.deliveries[id].attemptCount)
    ensures 1 <= attempt.sequence <= s.deliveries[id].attemptCount
  {
    assert DeliveryInv(s, attempt.delivery);
    var d := s.deliveries[attempt.delivery];
    assert attempt == AttemptId(attempt.delivery, attempt.sequence);
    assert SlotRow(s.attempts[AttemptId(attempt.delivery, attempt.sequence)], attempt,
                   d.status, d.attemptCount);
  }

  /** An observation names an attempt of its own delivery, numbered within the count. */
  ghost predicate Fits(s: Tables, id: DeliveryId, attempt: AttemptId) {
    && Matched(s, id, attempt)
    && attempt.delivery == id
    && SlotRow(s.attempts[attempt], attempt, s.deliveries[id].status, s.deliveries[id].attemptCount)
    && 1 <= attempt.sequence <= s.deliveries[id].attemptCount
  }

  // Dispatch observations

  /** The observed attempt is the last, and its row fits the delivery's next status. */
  lemma ObservedSlots(s: Tables, p: DispatchObserved, to: DeliveryStatus)
    requires p.delivery in s.deliveries && DeliveryInv(s, p.delivery)
    requires p.attempt in s.attempts && p.attempt.delivery == p.delivery
    requires s.deliveries[p.delivery].status == Attempting
    requires s.attempts[p.attempt].status == Dispatching
    requires to == Accepted ==> p.outcome == ProviderAccepted
    requires to == RetryScheduled ==> p.outcome == TemporaryFailure
    requires to in {Accepted, RetryScheduled, Failed, DeliveryUnknown}
    ensures p.attempt == AttemptId(p.delivery, s.deliveries[p.delivery].attemptCount)
    ensures SlotInv(
              s.attempts[p.attempt := Observed(s.attempts[p.attempt], StatusFor(p.outcome), p)],
              p.delivery, to, s.deliveries[p.delivery].attemptCount)
  {
    var count := s.deliveries[p.delivery].attemptCount;
    OpenSlotIsLast(s.attempts, p.attempt, p.delivery, count);
    assert SlotRow(s.attempts[AttemptId(p.delivery, count)], p.attempt, Attempting, count);
    SlotsReplaced(s.attempts, p.attempt, Observed(s.attempts[p.attempt], StatusFor(p.outcome), p),
                  p.delivery, Attempting, to, count);
  }

  /** The observation writes to a delivery whose attempt is in flight, and no key clashes. */
  ghost predicate CanCommit(s: Tables, e: Envelope, p: DispatchObserved) {
    && Matched(s, p.delivery, p.attempt) && p.attempt.delivery == p.delivery
    && s.deliveries[p.delivery].status == Attempting
    && s.attempts[p.attempt].status == Dispatching
    && s.deliveries[p.delivery].revision < MAX_SAFE_WIRE_INTEGER
    && !EvidenceClashes(s, e, p)
    && e.payload == Dispatch(p)
    && e.id in s.events && s.events[e.id].digest == Digest(e)
  }

  lemma CommitKeepsReceipts(s: Tables, e: Envelope, p: DispatchObserved)
    requires CanCommit(s, e, p) && ReceiptInv(s.receipts, p.delivery, s.deliveries[p.delivery])
    requires 1 <= p.attempt.sequence <= s.deliveries[p.delivery].attemptCount
    ensures ReceiptInv(CommitOutcome(s, e, p).receipts, p.delivery,
                       ObservedRow(s.deliveries[p.delivery], p))
  {
    var id, d := p.delivery, s.deliveries[p.delivery];
    if AddsReceipt(p) {
      ReceiptInserted(s.receipts, AcceptanceKey(p), AcceptanceReceipt(p), id, d, ObservedRow(d, p));
    } else {
      ReceiptsKept(s.receipts, id, d, ObservedRow(d, p));
    }
  }

  lemma CommitKeepsRetries(s: Tables, e: Envelope, p: DispatchObserved)
    requires CanCommit(s, e, p)
    requires var d := s.deliveries[p.delivery];
             && RowInv(d)
             && RetryInv(s.retries, p.delivery, d.revision, d.status)
             && CountInv(s.retries, p.delivery, d)
             && HistoryInv(s.events, p.delivery, d.attemptCount - 1)
             && p.attempt.sequence == d.attemptCount
    ensures var d', retries' := ObservedRow(s.deliveries[p.delivery], p), CommitOutcome(s, e, p).retries;
            && RetryInv(retries', p.delivery, d'.revision, d'.status)
            && CountInv(retries', p.delivery, d')
            && ScheduleInv(retries', s.events, p.delivery, d')
            && HistoryInv(s.events, p.delivery, FailedThrough(d'))
  {
    hide Observed, AcceptanceKey, AcceptanceReceipt, ManualRetries, AutomaticRetries;
    hide RejectedRetries;
    var id, d := p.delivery, s.deliveries[p.delivery];
    var d' := ObservedRow(d, p);
    if p.outcome == TemporaryFailure {
      var key, row := RetryKey(id, e.id), AutomaticDecision(d, p);
      RetryInserted(s.retries, key, row, id, d.revision, Attempting, d'.status);
      CountsInserted(s.retries, key, row);
      assert IsTemporaryFailure(s.events[e.id].digest.payload, AttemptId(id, d.attemptCount));
      assert FailedTemporarily(s.events, AttemptId(id, d.attemptCount));
      if d'.status == RetryScheduled {
        assert Explains(s.retries[key := row], s.events, id, d', e.id);
      }
    } else {
      RevisionRises(s.retries, id, d.revision, d.status, d'.status);
    }
  }

  lemma OutcomeIsTold(s: Tables, e: Envelope, p: DispatchObserved)
    requires CanCommit(s, e, p)
    requires p.attempt == AttemptId(p.delivery, s.deliveries[p.delivery].attemptCount)
    ensures OutcomeInv(s.events, p.delivery, ObservedRow(s.deliveries[p.delivery], p))
  {
    assert ReportsOutcome(s.events[e.id].digest.payload, p.attempt, p.outcome);
  }

  lemma CommitKeepsDelivery(s: Tables, e: Envelope, p: DispatchObserved)
    requires CanCommit(s, e, p) && DeliveryInv(s, p.delivery)
    ensures DeliveryInv(CommitOutcome(s, e, p), p.delivery)
  {
    hide SlotInv, ReceiptInv, HistoryInv, OutcomeInv, RetryInv, ScheduleInv;
    hide ManualRetries, AutomaticRetries, RejectedRetries;
    ObservedSlots(s, p, ObservedRow(s.deliveries[p.delivery], p).status);
    OutcomeIsTold(s, e, p);
    CommitKeepsReceipts(s, e, p);
    CommitKeepsRetries(s, e, p);
  }

  /** Another delivery keeps its invariant when this one's observation commits. */
  lemma CommitKeepsOthers(s: Tables, e: Envelope, p: DispatchObserved, id: DeliveryId)
    requires CanCommit(s, e, p)
    requires id in s.deliveries && DeliveryInv(s, id) && id != p.delivery
    ensures DeliveryInv(CommitOutcome(s, e, p), id)
  {
    hide SlotInv, ReceiptInv, HistoryInv, OutcomeInv, RetryInv, ScheduleInv;
    hide ManualRetries, AutomaticRetries, RejectedRetries;
    var d, a := s.deliveries[id], s.attempts[p.attempt];
    SlotsElsewhere(s.attempts, p.attempt, Observed(a, StatusFor(p.outcome), p), id, d.status, d.attemptCount);
    if p.outcome == TemporaryFailure {
      RetriesElsewhere(s.retries, RetryKey(p.delivery, e.id),
                       AutomaticDecision(s.deliveries[p.delivery], p), s.events, id, d);
    }
    if AddsReceipt(p) {
      ReceiptsElsewhere(s.receipts, AcceptanceKey(p), AcceptanceReceipt(p), id, d);
    }
  }

  /** Late metadata changes no attempt status, so it changes nothing the invariant mentions. */
  lemma AbsorbKeepsDelivery(s: Tables, p: DispatchObserved, s': Tables, id: DeliveryId)
    requires Fits(s, p.delivery, p.attempt) && Terminal(s.deliveries[p.delivery].status)
    requires id in s.deliveries && DeliveryInv(s, id)
    requires s' == s.(attempts := s.attempts[p.attempt := Absorbed(s.attempts[p.attempt], p)])
    ensures DeliveryInv(s', id)
  {
    var d, a' := s.deliveries[id], Absorbed(s.attempts[p.attempt], p);
    if id == p.delivery {
      SlotsReplaced(s.attempts, p.attempt, a', id, d.status, d.status, d.attemptCount);
    } else {
      SlotsElsewhere(s.attempts, p.attempt, a', id, d.status, d.attemptCount);
    }
  }

  lemma CommitKeepsInv(hash: IntentId -> DeliveryId, s: Tables, e: Envelope, p: DispatchObserved)
    requires Inv(hash, s) && CanCommit(s, e, p)
    ensures Inv(hash, CommitOutcome(s, e, p))
  {
    hide Catalogue, DeliveryInv;
    var s' := CommitOutcome(s, e, p);
    CatalogueKept(hash, s, s');
    forall id | id in s'.deliveries ensures DeliveryInv(s', id) {
      if id != p.delivery {
        CommitKeepsOthers(s, e, p, id);
      } else {
        CommitKeepsDelivery(s, e, p);
      }
    }
  }

  lemma ApplyDispatchKeepsInv(
    hash: IntentId -> DeliveryId, s: Tables, e: Envelope, p: DispatchObserved, s': Tables)
    requires Inv(hash, s) && e.payload == Dispatch(p)
    requires ApplyDispatch(s, e, p) == Success(s')
    ensures Inv(hash, s')
  {
    hide Catalogue, DeliveryInv;
    if ClaimEvent(s, e, p.observedAt).Admitted? {
      var s1 := ClaimEvent(s, e, p.observedAt).tables;
      ClaimEventKeepsInv(hash, s, e, p.observedAt, s1);
      AttemptBelongs(hash, s1, p.delivery, p.attempt);
      if s1.deliveries[p.delivery].status != Attempting {
        CatalogueKept(hash, s1, s');
        forall id | id in s'.deliveries ensures DeliveryInv(s', id) {
          AbsorbKeepsDelivery(s1, p, s', id);
        }
      } else {
        CommitKeepsInv(hash, s1, e, p);
      }
    }
  }

  // Authoritative receipts

  lemma ConcludedFits(d: Delivery, p: ReceiptObserved, manual: nat, automatic: nat, rejected: nat)
    requires RowInv(d) && d.status in {Attempting, Accepted} && d.revision < MAX_SAFE_WIRE_INTEGER
    requires RevisionIs(d, manual) && DecisionCounts(d, automatic, rejected)
    ensures var d' := Concluded(d, p);
            && RowInv(d') && RevisionIs(d', manual) && DecisionCounts(d', automatic, rejected)
            && d'.status == StatusAfter(p.verdict) && d'.attemptCount == d.attemptCount
            && d'.revision == d.revision + 1 && d'.intent == d.intent
            && ToldOutcome(d').None?
            && (p.verdict == ReachedRecipient ==> d'.deliveredAt == Some(p.observedAt))
  {
  }

  lemma VerdictKeepsDelivery(s: Tables, e: Envelope, p: ReceiptObserved)
    requires Fits(s, p.delivery, p.attempt) && DeliveryInv(s, p.delivery)
    requires s.deliveries[p.delivery].status in {Attempting, Accepted}
    requires s.deliveries[p.delivery].revision < MAX_SAFE_WIRE_INTEGER
    requires ReceiptKeyOf(p) !in s.receipts
    ensures DeliveryInv(CommitVerdict(s, e, p), p.delivery)
  {
    hide SlotInv, ReceiptInv, HistoryInv, OutcomeInv, RetryInv, ScheduleInv, RowInv, Concluded;
    hide ManualRetries, AutomaticRetries, RejectedRetries, RevisionIs, DecisionCounts, ToldOutcome;
    var id, d := p.delivery, s.deliveries[p.delivery];
    var d' := Concluded(d, p);
    var a' := Confirmed(s.attempts[p.attempt], p);
    ConcludedFits(d, p, ManualRetries(s.retries, id), AutomaticRetries(s.retries, id),
                  RejectedRetries(s.retries, id));
    assert SlotRow(a', p.attempt, d'.status, d.attemptCount);
    SlotsReplaced(s.attempts, p.attempt, a', id, d.status, d'.status, d.attemptCount);
    assert ReceiptRow(d', id, ReceiptKeyOf(p), VerdictReceipt(e, p));
    ReceiptInserted(s.receipts, ReceiptKeyOf(p), VerdictReceipt(e, p), id, d, d');
    RevisionRises(s.retries, id, d.revision, d.status, d'.status);
    NothingToExplain(s.retries, s.events, id, d');
    NothingTold(s.events, id, d');
  }

  lemma VerdictKeepsOthers(s: Tables, e: Envelope, p: ReceiptObserved, id: DeliveryId)
    requires Fits(s, p.delivery, p.attempt) && ReceiptKeyOf(p) !in s.receipts
    requires id in s.deliveries && DeliveryInv(s, id) && id != p.delivery
    ensures DeliveryInv(CommitVerdict(s, e, p), id)
  {
    hide SlotInv, ReceiptInv, HistoryInv, OutcomeInv, RetryInv, ScheduleInv;
    hide ManualRetries, AutomaticRetries, RejectedRetries;
    var d := s.deliveries[id];
    SlotsElsewhere(s.attempts, p.attempt, Confirmed(s.attempts[p.attempt], p), id, d.status,
                   d.attemptCount);
    ReceiptsElsewhere(s.receipts, ReceiptKeyOf(p), VerdictReceipt(e, p), id, d);
  }

  lemma ApplyReceiptKeepsInv(
    hash: IntentId -> DeliveryId, s: Tables, e: Envelope, p: ReceiptObserved, s': Tables)
    requires Inv(hash, s) && ApplyReceipt(s, e, p) == Success(s')
    ensures Inv(hash, s')
  {
    hide Catalogue, DeliveryInv;
    if ClaimEvent(s, e, p.observedAt).Admitted? {
      var s1 := ClaimEvent(s, e, p.observedAt).tables;
      ClaimEventKeepsInv(hash, s, e, p.observedAt, s1);
      if ReceiptKeyOf(p) !in s1.receipts {
        AttemptBelongs(hash, s1, p.delivery, p.attempt);
        CatalogueKept(hash, s1, s');
        forall id | id in s'.deliveries ensures DeliveryInv(s', id) {
          if id == p.delivery {
            VerdictKeepsDelivery(s1, e, p);
          } else {
            VerdictKeepsOthers(s1, e, p, id);
          }
        }
      }
    }
  }

  // Cancellation

  lemma CancelKeepsDelivery(s: Tables, s': Tables, id: DeliveryId, e: Envelope, p: LifecycleObserved)
    requires id in s.deliveries && DeliveryInv(s, id) && Waiting(s.deliveries[id].status)
    requires id in s'.deliveries
    requires s'.deliveries[id] == CancelledRow(s.deliveries[id], e, p)
    requires s.deliveries[id].revision < MAX_SAFE_WIRE_INTEGER
    requires s'.attempts == s.attempts && s'.receipts == s.receipts
    requires s'.retries == s.retries && s'.events == s.events
    ensures DeliveryInv(s', id)
  {
    var d, d' := s.deliveries[id], s'.deliveries[id];
    ReceiptsKept(s.receipts, id, d, d');
    RevisionRises(s.retries, id, d.revision, d.status, d'.status);
    SlotsClosed(s.attempts, id, d.status, d'.status, d.attemptCount);
  }

  lemma ApplyLifecycleKeepsInv(
    hash: IntentId -> DeliveryId, s: Tables, e: Envelope, p: LifecycleObserved, s': Tables)
    requires Inv(hash, s) && ApplyLifecycle(s, e, p) == Success(s')
    ensures Inv(hash, s')
  {
    hide Catalogue, DeliveryInv;
    if ClaimEvent(s, e, p.observedAt).Admitted? {
      var s1 := ClaimEvent(s, e, p.observedAt).tables;
      ClaimEventKeepsInv(hash, s, e, p.observedAt, s1);
      CatalogueKept(hash, s1, s');
      forall id | id in s'.deliveries ensures DeliveryInv(s', id) {
        if CancelledBy(s1, id, e.source, p) {
          CancelKeepsDelivery(s1, s', id, e, p);
        } else {
          Unchanged(s1, s', id);
        }
      }
    }
  }

  lemma ApplyKeepsInv(hash: IntentId -> DeliveryId, s: Tables, e: Envelope, s': Tables)
    requires Inv(hash, s) && Apply(s, e) == Success(s')
    ensures Inv(hash, s')
  {
    match e.payload
    case Dispatch(p) => ApplyDispatchKeepsInv(hash, s, e, p, s');
    case Authoritative(p) => ApplyReceiptKeepsInv(hash, s, e, p, s');
    case Invitation(p) => ApplyLifecycleKeepsInv(hash, s, e, p, s');
  }

  // Claims

  lemma ClaimKeepsDelivery(s: Tables, id: DeliveryId, now: Time)
    requires id in s.deliveries && DeliveryInv(s, id) && Waiting(s.deliveries[id].status)
    requires s.deliveries[id].attemptCount < s.deliveries[id].maxAttempts
    requires s.deliveries[id].revision < MAX_SAFE_WIRE_INTEGER
    ensures DeliveryInv(CommitClaim(s, id, now), id)
  {
    hide SlotInv, ReceiptInv, HistoryInv, OutcomeInv, RetryInv, ScheduleInv;
    hide ManualRetries, AutomaticRetries, RejectedRetries;
    var d := s.deliveries[id];
    var d' := ClaimedRow(d, now);
    SlotAppended(s.attempts, id, d.status, d.attemptCount, now);
    ReceiptsKept(s.receipts, id, d, d');
    RevisionRises(s.retries, id, d.revision, d.status, Attempting);
    NothingToExplain(s.retries, s.events, id, d');
    NothingTold(s.events, id, d');
  }

  lemma ClaimKeepsOthers(s: Tables, id: DeliveryId, now: Time, other: DeliveryId)
    requires id in s.deliveries && other in s.deliveries && DeliveryInv(s, other) && other != id
    ensures DeliveryInv(CommitClaim(s, id, now), other)
  {
    hide SlotInv, ReceiptInv, HistoryInv, OutcomeInv, RetryInv, ScheduleInv;
    hide ManualRetries, AutomaticRetries, RejectedRetries;
    var attempt := AttemptId(id, s.deliveries[id].attemptCount + 1);
    SlotsElsewhere(s.attempts, attempt, NewAttempt(attempt, now), other,
                   s.deliveries[other].status, s.deliveries[other].attemptCount);
  }

  lemma ClaimKeepsInv(
    hash: IntentId -> DeliveryId, s: Tables, keyReference: string, id: DeliveryId, now: Time,
    locked: set<DeliveryId>, s': Tables, request: DispatchRequest)
    requires Inv(hash, s) && Due(s, id, now, locked)
    requires ClaimRow(s, keyReference, id, now) == Success((s', request))
    ensures Inv(hash, s')
  {
    hide Catalogue, DeliveryInv;
    CatalogueKept(hash, s, s');
    forall other | other in s'.deliveries ensures DeliveryInv(s', other) {
      if other == id {
        ClaimKeepsDelivery(s, id, now);
      } else {
        ClaimKeepsOthers(s, id, now, other);
      }
    }
  }

  // Manual retries

  lemma ManualRetryKeepsDelivery(
    s: Tables, key: RetryKey, row: Retry, now: Time, s': Tables, other: DeliveryId)
    requires var id := key.delivery;
             && id in s.deliveries && DeliveryInv(s, id) && s.deliveries[id].status == RetryScheduled
             && key !in s.retries
             && row.kind == Manual && row.decision == Scheduled && row.scheduledAt == Some(now)
             && row.sourceRevision == s.deliveries[id].revision < MAX_SAFE_WIRE_INTEGER
             && s' == s.(deliveries := s.deliveries[id := RetriedRow(s.deliveries[id], now)],
                        retries := s.retries[key := row])
    requires other in s.deliveries && DeliveryInv(s, other)
    ensures DeliveryInv(s', other)
  {
    hide SlotInv, ReceiptInv, HistoryInv, OutcomeInv, RetryInv;
    hide ManualRetries, AutomaticRetries, RejectedRetries;
    var id := key.delivery;
    var d, d' := s.deliveries[id], s'.deliveries[id];
    if other == id {
      RetryInserted(s.retries, key, row, id, d.revision, d.status, d'.status);
      CountsInserted(s.retries, key, row);
      ReceiptsKept(s.receipts, id, d, d');
      assert Explains(s'.retries, s'.events, id, d', key.key);
      NothingTold(s'.events, id, d');
    } else {
      RetriesElsewhere(s.retries, key, row, s.events, other, s.deliveries[other]);
    }
  }

  lemma ManualRetryKeepsInv(
    hash: IntentId -> DeliveryId, s: Tables, id: DeliveryId, expectedRevision: int, key: Key,
    requestedBy: string, now: Time, s': Tables, answer: RetryAnswer)
    requires Inv(hash, s)
    requires RequestManualRetry(s, id, expectedRevision, key, requestedBy, now) == Success((s', answer))
    ensures Inv(hash, s')
  {
    hide Catalogue, DeliveryInv;
    if !answer.replay {
      var retryKey := RetryKey(id, key);
      CatalogueKept(hash, s, s');
      forall other | other in s'.deliveries ensures DeliveryInv(s', other) {
        ManualRetryKeepsDelivery(s, retryKey, s'.retries[retryKey], now, s', other);
      }
    }
  }

  // Creates

  lemma QueuedSatisfiesInv(s: Tables, id: DeliveryId)
    requires id in s.deliveries && exists key, now :: s.deliveries[id] == QueuedRow(key, now)
    requires forall k | k in s.attempts :: k.delivery != id
    requires forall k | k in s.receipts :: s.receipts[k].delivery != id
    requires forall k | k in s.retries :: k.delivery != id
    ensures DeliveryInv(s, id)
  {
    assert Decisions(s.retries, id, Manual, Scheduled) == {};
    assert Decisions(s.retries, id, Automatic, Scheduled) == {};
    assert Decisions(s.retries, id, Automatic, Rejected) == {};
    assert forall n :: AttemptId(id, n) !in s.attempts;
  }

  lemma NothingNames(hash: IntentId -> DeliveryId, s: Tables, id: DeliveryId)
    requires Catalogue(hash, s) && id !in s.deliveries
    ensures forall k | k in s.attempts :: k.delivery != id
    ensures forall k | k in s.receipts :: s.receipts[k].delivery != id
    ensures forall k | k in s.retries :: k.delivery != id
  {
  }

  /** The rows a create adds for `request`, whose keys were all free. */
  ghost predicate Created(hash: IntentId -> DeliveryId, s: Tables, s': Tables, request: IntentRequest) {
    var digest := RequestDigest(request);
    var id := hash(IntentId(request.key, digest));
    && request.key !in s.intents && digest !in s.snapshots && id !in s.deliveries
    && request.key in s'.intents && digest in s'.snapshots && id in s'.deliveries
    && s'.intents == s.intents[request.key := s'.intents[request.key]]
    && s'.snapshots == s.snapshots[digest := s'.snapshots[digest]]
    && s'.deliveries == s.deliveries[id := s'.deliveries[id]]
    && s'.intents[request.key].digest == digest
    && s'.deliveries[id].intent == request.key
    && s'.snapshots[digest].release in s'.releases
    && (forall k | k in s.releases :: k in s'.releases)
  }

  lemma CreateKeepsIntents(
    hash: IntentId -> DeliveryId, s: Tables, s': Tables, request: IntentRequest, k: IntentKey)
    requires Created(hash, s, s', request) && k in s'.intents
    requires k in s.intents ==> IntentRow(hash, s, k)
    ensures IntentRow(hash, s', k)
  {
  }

  lemma CreateKeepsIdentities(
    hash: IntentId -> DeliveryId, s: Tables, s': Tables, request: IntentRequest, id: DeliveryId)
    requires Created(hash, s, s', request) && id in s'.deliveries
    requires id in s.deliveries ==> DeliveryIdentity(hash, s, id)
    ensures DeliveryIdentity(hash, s', id)
  {
  }

  lemma CreateKeepsCatalogue(hash: IntentId -> DeliveryId, s: Tables, s': Tables, request: IntentRequest)
    requires Catalogue(hash, s) && Created(hash, s, s', request)
    requires s'.attempts == s.attempts && s'.receipts == s.receipts && s'.retries == s.retries
    requires s'.events == s.events && s'.lifecycle == s.lifecycle
    ensures Catalogue(hash, s')
  {
    hide IntentRow, DeliveryIdentity;
    forall k | k in s'.intents ensures IntentRow(hash, s', k) {
      CreateKeepsIntents(hash, s, s', request, k);
    }
    forall id | id in s'.deliveries ensures DeliveryIdentity(hash, s', id) {
      CreateKeepsIdentities(hash, s, s', request, id);
    }
  }

  lemma CreateKeepsInv(
    hash: IntentId -> DeliveryId, s: Tables, request: IntentRequest, rendered: Rendered,
    keyReference: string, now: Time, s': Tables, receipt: IntentReceipt)
    requires Inv(hash, s)
    requires CreateIntent(s, hash, request, rendered, keyReference, now) == Success((s', receipt))
    ensures Inv(hash, s')
  {
    hide Catalogue, DeliveryInv;
    if !receipt.replay {
      var created := hash(IntentId(request.key, RequestDigest(request)));
      CreateKeepsCatalogue(hash, s, s', request);
      forall id | id in s'.deliveries ensures DeliveryInv(s', id) {
        if id == created {
          assert s'.deliveries[id] == QueuedRow(request.key, now);
          NothingNames(hash, s, created);
          QueuedSatisfiesInv(s', id);
        } else {
          Unchanged(s, s', id);
        }
      }
    }
  }
}
