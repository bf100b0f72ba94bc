/** What can be read off the rows of a delivery in any world of any run: how its revision is made
    up, how much evidence it can gather, and which decision set the schedule a claim obeys. */
module Evidence {
  import opened Wrappers
  import opened Records
  import opened Validation
  import opened Returns
  import opened Transactions
  import opened Invariant
  import opened Evolution
  import opened System
  import opened Protocol
  import opened Guarantees

  const ADMIN_ATTEMPT_LIMIT := 10
  const ADMIN_RECEIPT_LIMIT := 1_000
  const ADMIN_RETRY_REQUEST_LIMIT := 1_000

  lemma DeliveryInRun(hash: IntentId -> DeliveryId, trace: seq<World>, t: nat, id: DeliveryId)
    requires Run(hash, trace) && t < |trace| && id in trace[t].ledger.deliveries
    ensures DeliveryInv(trace[t].ledger, id)
    ensures Joined(trace[t].ledger, trace[t].ledger.deliveries[id].intent)
  {
    hide Run, DeliveryInv;
    RunKeepsWorldInv(hash, trace, t);
    var s := trace[t].ledger;
    assert DeliveryIdentity(hash, s, id) && IntentRow(hash, s, s.deliveries[id].intent);
  }

  // Counting rows

  ghost function AttemptsOf(s: Tables, id: DeliveryId): set<AttemptId> {
    set k | k in s.attempts && s.attempts[k].delivery == id
  }

  ghost function ReceiptsOf(s: Tables, id: DeliveryId): set<ReceiptKey> {
    set k | k in s.receipts && s.receipts[k].delivery == id
  }

  ghost function AcceptancesOf(s: Tables, id: DeliveryId): set<ReceiptKey> {
    set k | k in ReceiptsOf(s, id) && k.kind.AcceptedReceipt?
  }

  ghost function VerdictsOf(s: Tables, id: DeliveryId): set<ReceiptKey> {
    set k | k in ReceiptsOf(s, id) && k.kind.FinalReceipt?
  }

  ghost function RetriesOf(s: Tables, id: DeliveryId): set<RetryKey> {
    set k | k in s.retries && k.delivery == id
  }

  ghost function Numbered(id: DeliveryId, count: int): set<AttemptId> {
    set n | 1 <= n <= count :: AttemptId(id, n)
  }

  lemma {:induction false} NumberedCounts(id: DeliveryId, count: nat)
    ensures |Numbered(id, count)| == count
  {
    if count > 0 {
      NumberedCounts(id, count - 1);
      assert Numbered(id, count) == Numbered(id, count - 1) + {AttemptId(id, count)};
    } else {
      assert Numbered(id, count) == {};
    }
  }

  lemma AttemptNamesDelivery(hash: IntentId -> DeliveryId, s: Tables, k: AttemptId)
    requires Inv(hash, s) && k in s.attempts
    ensures s.attempts[k].delivery == k.delivery
  {
    assert DeliveryInv(s, k.delivery);
    assert k == AttemptId(k.delivery, k.sequence);
  }

  lemma AttemptsAreCounted(hash: IntentId -> DeliveryId, s: Tables, id: DeliveryId)
    requires Inv(hash, s) && id in s.deliveries
    ensures |AttemptsOf(s, id)| == s.deliveries[id].attemptCount
  {
    hide Catalogue, SlotRow, ReceiptInv, HistoryInv, RetryInv, ScheduleInv, CountInv;
    var count := s.deliveries[id].attemptCount;
    assert DeliveryInv(s, id);
    forall k | k in s.attempts ensures s.attempts[k].delivery == k.delivery {
      AttemptNamesDelivery(hash, s, k);
    }
    assert AttemptsOf(s, id) == Numbered(id, count) by {
      forall k | k in AttemptsOf(s, id) ensures k in Numbered(id, count) {
        assert k == AttemptId(id, k.sequence);
      }
    }
    NumberedCounts(id, count);
  }

  lemma AtMostOne<T>(items: set<T>)
    requires forall x, y :: x in items && y in items ==> x == y
    ensures |items| <= 1
  {
    if x :| x in items {
      assert items == {x};
    }
  }

  lemma ReceiptsAreFew(s: Tables, id: DeliveryId)
    requires id in s.deliveries && ReceiptInv(s.receipts, id, s.deliveries[id])
    ensures |AcceptancesOf(s, id)| <= 1 && |VerdictsOf(s, id)| <= 1
    ensures |ReceiptsOf(s, id)| == |AcceptancesOf(s, id)| + |VerdictsOf(s, id)|
  {
    assert forall k :: k in ReceiptsOf(s, id) <==> ReceiptOf(s.receipts, k, id);
    AtMostOne(AcceptancesOf(s, id));
    AtMostOne(VerdictsOf(s, id));
    assert ReceiptsOf(s, id) == AcceptancesOf(s, id) + VerdictsOf(s, id);
  }

  lemma RetriesAreKinds(s: Tables, id: DeliveryId)
    requires id in s.deliveries
    requires RetryInv(s.retries, id, s.deliveries[id].revision, s.deliveries[id].status)
    ensures |RetriesOf(s, id)| ==
            ManualRetries(s.retries, id) + AutomaticRetries(s.retries, id) + RejectedRetries(s.retries, id)
  {
    var manual := Decisions(s.retries, id, Manual, Scheduled);
    var automatic := Decisions(s.retries, id, Automatic, Scheduled);
    var rejected := Decisions(s.retries, id, Automatic, Rejected);
    forall k | k in RetriesOf(s, id) ensures k in manual + automatic + rejected {
      assert k == RetryKey(id, k.key);
      assert RetryRow(s.retries[RetryKey(id, k.key)], s.deliveries[id].revision, s.deliveries[id].status);
    }
    assert RetriesOf(s, id) == manual + automatic + rejected;
  }

  /** The whole account of a delivery: its revision in closed form, which stays within ten of
      the manual retries granted, and how many rows of each kind it can gather. Exhausting the
      revisions therefore takes about as many manual retries as there are revisions. */
  lemma EvidenceIsBounded(hash: IntentId -> DeliveryId, trace: seq<World>, t: nat, id: DeliveryId)
    requires Run(hash, trace) && t < |trace| && id in trace[t].ledger.deliveries
    ensures var s := trace[t].ledger;
            var d, manual := s.deliveries[id], ManualRetries(s.retries, id);
            && RevisionIs(d, manual)
            && 1 <= d.revision <= Min(manual + 10, MAX_SAFE_WIRE_INTEGER)
            && |AttemptsOf(s, id)| == d.attemptCount <= Cap(d)
            && |AcceptancesOf(s, id)| <= 1 && |VerdictsOf(s, id)| <= 1
            && |ReceiptsOf(s, id)| == |AcceptancesOf(s, id)| + |VerdictsOf(s, id)|
            && AutomaticRetries(s.retries, id) <= 3
            && RejectedRetries(s.retries, id) <= 1
            && |RetriesOf(s, id)| ==
               manual + AutomaticRetries(s.retries, id) + RejectedRetries(s.retries, id)
  {
    hide Run, Joined, SlotInv, ReceiptInv, RetryInv, ScheduleInv, HistoryInv, Catalogue, LogInv;
    hide ManualRetries, AutomaticRetries, RejectedRetries, EventInv, WorkerInv, Separate;
    hide AttemptsOf, ReceiptsOf, RetriesOf, AcceptancesOf, VerdictsOf;
    RunKeepsWorldInv(hash, trace, t);
    DeliveryInRun(hash, trace, t, id);
    AttemptsAreCounted(hash, trace[t].ledger, id);
    ReceiptsAreFew(trace[t].ledger, id);
    RetriesAreKinds(trace[t].ledger, id);
  }

  // The bounded evidence projection

  datatype DeliveryDetail = DeliveryDetail(
    delivery: Delivery, attempts: set<AttemptId>, receipts: set<ReceiptKey>, retries: set<RetryKey>)

  ghost predicate OwnAttempts(s: Tables, id: DeliveryId, keys: set<AttemptId>) {
    forall k :: k in keys <==> k in s.attempts && s.attempts[k].delivery == id
  }

  ghost predicate OwnReceipts(s: Tables, id: DeliveryId, keys: set<ReceiptKey>) {
    forall k :: k in keys <==> k in s.receipts && s.receipts[k].delivery == id
  }

  ghost predicate OwnRetries(s: Tables, id: DeliveryId, keys: set<RetryKey>) {
    forall k :: k in keys <==> k in s.retries && k.delivery == id
  }

  /** Reads a delivery with all its evidence, or refuses when there is too much of it. */
  ghost function GetDelivery(s: Tables, id: DeliveryId): Result<Option<DeliveryDetail>> {
    if id !in s.deliveries || !Joined(s, s.deliveries[id].intent) then
      Success(None)
    else if |AttemptsOf(s, id)| > ADMIN_ATTEMPT_LIMIT then
      Failure(EvidenceOverflow)
    else if |ReceiptsOf(s, id)| > ADMIN_RECEIPT_LIMIT then
      Failure(EvidenceOverflow)
    else if |RetriesOf(s, id)| > ADMIN_RETRY_REQUEST_LIMIT then
      Failure(EvidenceOverflow)
    else
      Success(Some(DeliveryDetail(
                s.deliveries[id], AttemptsOf(s, id), ReceiptsOf(s, id), RetriesOf(s, id))))
  }

  /** The intent is there, with its snapshot and its release. */
  predicate Complete(s: Tables, key: IntentKey) {
    && key in s.intents
    && s.intents[key].digest in s.snapshots
    && s.snapshots[s.intents[key].digest].release in s.releases
  }

  /** The detail is refused for more than 10 attempts or 1000 receipts or decisions. When it is
      answered it holds the delivery's row and exactly the attempts, receipts and decisions that
      belong to it; a delivery that is not there, or whose content is not, is not found. */
  lemma DetailIsExact(s: Tables, id: DeliveryId)
    ensures var detail := GetDelivery(s, id);
            if id !in s.deliveries || !Complete(s, s.deliveries[id].intent) then detail == Success(None)
            else if detail.Failure? then
              && detail.error == EvidenceOverflow
              && ((exists k: set<AttemptId> :: |k| > 10 && OwnAttempts(s, id, k))
                  || (exists k: set<ReceiptKey> :: |k| > 1_000 && OwnReceipts(s, id, k))
                  || (exists k: set<RetryKey> :: |k| > 1_000 && OwnRetries(s, id, k)))
            else
              && detail.value.Some?
              && var found := detail.value.value;
                 && found.delivery == s.deliveries[id]
                 && OwnAttempts(s, id, found.attempts) && |found.attempts| <= 10
                 && OwnReceipts(s, id, found.receipts) && |found.receipts| <= 1_000
                 && OwnRetries(s, id, found.retries) && |found.retries| <= 1_000
  {
    assert OwnAttempts(s, id, AttemptsOf(s, id));
    assert OwnReceipts(s, id, ReceiptsOf(s, id));
    assert OwnRetries(s, id, RetriesOf(s, id));
  }

  /** A known delivery is always found, and only a thousand-odd manual retries can make its
      evidence overflow. */
  lemma OverflowTakesManualRetries(
    hash: IntentId -> DeliveryId, trace: seq<World>, t: nat, id: DeliveryId)
    requires Run(hash, trace) && t < |trace|
    ensures var s := trace[t].ledger;
            var detail, manual := GetDelivery(s, id), ManualRetries(s.retries, id);
            && (id in s.deliveries <==> detail != Success(None))
            && (detail.Failure? ==> detail.error == EvidenceOverflow && manual > 996)
            && (id in s.deliveries && manual > 1_000 ==> detail.Failure?)
  {
    hide Run, Joined, AttemptsOf, ReceiptsOf, AcceptancesOf, VerdictsOf, RetriesOf, ManualRetries, AutomaticRetries;
    hide RejectedRetries, DeliveryInv, RevisionIs;
    if id in trace[t].ledger.deliveries {
      EvidenceIsBounded(hash, trace, t, id);
      DeliveryInRun(hash, trace, t, id);
    }
  }

  /** A delivery is delivered exactly when a delivery receipt for one of its attempts says so,
      at the time the receipt gives; and its due and final times follow its status. */
  lemma StatusHasItsEvidence(hash: IntentId -> DeliveryId, trace: seq<World>, t: nat, id: DeliveryId)
    requires Run(hash, trace) && t < |trace| && id in trace[t].ledger.deliveries
    ensures var s, d := trace[t].ledger, trace[t].ledger.deliveries[id];
            && (d.status == Delivered <==>
                  exists k :: ReceiptOf(s.receipts, k, id) && k.kind == FinalReceipt(ReachedRecipient)
                              && d.deliveredAt == Some(s.receipts[k].observedAt))
            && (d.nextAttemptAt.Some? <==> Waiting(d.status))
            && (d.finalAt.Some? <==> Terminal(d.status))
            && (d.status == RetryScheduled ==> 1 <= d.attemptCount < Cap(d))
  {
    hide Run, Joined, SlotInv, RetryInv, ScheduleInv, HistoryInv, CountInv;
    DeliveryInRun(hash, trace, t, id);
    var s, d := trace[t].ledger, trace[t].ledger.deliveries[id];
    if d.status == Delivered {
      var k :| ReceiptOf(s.receipts, k, id) && k.kind == FinalReceipt(ReachedRecipient);
      assert ReceiptRow(d, id, k, s.receipts[k]);
    }
    if k :| ReceiptOf(s.receipts, k, id) && k.kind == FinalReceipt(ReachedRecipient) {
      assert ReceiptRow(d, id, k, s.receipts[k]);
    }
  }

  lemma LastOutcomeIsTold(hash: IntentId -> DeliveryId, y: World, id: DeliveryId)
    requires WorldInv(hash, y) && id in y.ledger.deliveries
    requires ToldOutcome(y.ledger.deliveries[id]).Some?
    ensures var s, d, sent := y.ledger, y.ledger.deliveries[id], Invocations(y.log, id);
            && 1 <= |sent| == d.attemptCount
            && Outcome(sent[|sent| - 1]).outcome == ToldOutcome(d).value
            && exists e | e in s.events :: s.events[e].digest.payload == Dispatch(Outcome(sent[|sent| - 1]))
  {
    hide Outcome, Catalogue, RowInv, SlotInv, ReceiptInv, HistoryInv, RetryInv, ScheduleInv, CountInv;
    hide WorkerInv, Separate, ToldOutcome;
    var s, d := y.ledger, y.ledger.deliveries[id];
    assert DeliveryInv(s, id);
    assert LogInv(y.log, id, d.attemptCount);
    var e :| e in s.events
             && ReportsOutcome(s.events[e].digest.payload, AttemptId(id, d.attemptCount), ToldOutcome(d).value);
    assert Reported(y.log, s.events[e].digest.payload.dispatch);
  }

  /** In every run, an accepted delivery, one whose outcome is unknown and one that failed for good
      or used up its attempts are what the committed outcome of their last call says. */
  lemma StatusTellsLastOutcome(hash: IntentId -> DeliveryId, trace: seq<World>, t: nat, id: DeliveryId)
    requires Run(hash, trace) && t < |trace| && id in trace[t].ledger.deliveries
    ensures var s, d, sent := trace[t].ledger, trace[t].ledger.deliveries[id], Invocations(trace[t].log, id);
            ToldOutcome(d).Some? ==>
              && 1 <= |sent| == d.attemptCount
              && Outcome(sent[|sent| - 1]).outcome == ToldOutcome(d).value
              && exists e | e in s.events :: s.events[e].digest.payload == Dispatch(Outcome(sent[|sent| - 1]))
  {
    hide Run, WorldInv, Outcome, ToldOutcome;
    RunKeepsWorldInv(hash, trace, t);
    if ToldOutcome(trace[t].ledger.deliveries[id]).Some? {
      LastOutcomeIsTold(hash, trace[t], id);
    }
  }

  // Decisions over a run

  lemma ClaimDecidesNothing(
    s: Tables, keyReference: string, id: DeliveryId, now: Time, s': Tables, request: DispatchRequest)
    requires id in s.deliveries && Joined(s, s.deliveries[id].intent)
    requires ClaimRow(s, keyReference, id, now) == Success((s', request))
    ensures s'.retries == s.retries
  {
  }

  lemma OutcomeDecides(s: Tables, e: Envelope, p: DispatchObserved, key: RetryKey)
    requires Matched(s, p.delivery, p.attempt)
    requires key in CommitOutcome(s, e, p).retries && key !in s.retries
    ensures key.delivery == p.delivery
    ensures CommitOutcome(s, e, p).retries[key].sourceRevision == s.deliveries[p.delivery].revision
  {
    hide ObservedRow, Observed, AcceptanceKey, AcceptanceReceipt, RetrySchedule, HasReceipt;
  }

  lemma DispatchDecides(s: Tables, e: Envelope, p: DispatchObserved, s': Tables, key: RetryKey)
    requires ApplyDispatch(s, e, p) == Success(s') && key in s'.retries && key !in s.retries
    ensures key.delivery in s.deliveries
    ensures s'.retries[key].sourceRevision == s.deliveries[key.delivery].revision
  {
    hide Absorbed, HasReceipt, CommitOutcome, LateObservationIsCompatible, EvidenceClashes;
    var s1 := ClaimEvent(s, e, p.observedAt).tables;
    if s' == CommitOutcome(s1, e, p) {
      OutcomeDecides(s1, e, p, key);
    }
  }

  lemma ReceiptDecidesNothing(s: Tables, e: Envelope, p: ReceiptObserved, s': Tables)
    requires ApplyReceipt(s, e, p) == Success(s')
    ensures s'.retries == s.retries
  {
    hide Concluded, Confirmed, VerdictReceipt;
  }

  lemma LifecycleDecidesNothing(s: Tables, e: Envelope, p: LifecycleObserved, s': Tables)
    requires ApplyLifecycle(s, e, p) == Success(s')
    ensures s'.retries == s.retries
  {
    hide Cancelled, CancelledBy;
  }

  lemma ApplyDecides(s: Tables, e: Envelope, s': Tables, key: RetryKey)
    requires Apply(s, e) == Success(s') && key in s'.retries && key !in s.retries
    ensures key.delivery in s.deliveries
    ensures s'.retries[key].sourceRevision == s.deliveries[key.delivery].revision
  {
    hide ApplyDispatch, ApplyReceipt, ApplyLifecycle, ValidDispatchObservation, ValidReceipt;
    match e.payload
    case Dispatch(p) => DispatchDecides(s, e, p, s', key);
    case Authoritative(p) => ReceiptDecidesNothing(s, e, p, s');
    case Invitation(p) => LifecycleDecidesNothing(s, e, p, s');
    case Undeclared =>
  }

  /** A decision is taken at the revision its delivery has at the time. */
  lemma StepDecides(hash: IntentId -> DeliveryId, s: Tables, action: Action, s': Tables, key: RetryKey)
    requires Step(hash, s, action, s') && key in s'.retries && key !in s.retries
    ensures key.delivery in s.deliveries
    ensures s'.retries[key].sourceRevision == s.deliveries[key.delivery].revision
  {
    hide Apply, ClaimsDue, ClaimRow;
    match action
    case ObserveEvent(e) => ApplyDecides(s, e, s', key);
    case ClaimDue(keyReference, now, locked) =>
      var id, request := PickedClaim(s, keyReference, now, locked, s');
      ClaimDecidesNothing(s, keyReference, id, now, s', request);
    case RetryNow(_, _, _, _, _) =>
    case Create(_, _, _, _) =>
  }

  lemma FollowsDecides(hash: IntentId -> DeliveryId, y: World, y': World, key: RetryKey)
    requires Follows(hash, y, y') && key in y'.ledger.retries && key !in y.ledger.retries
    ensures key.delivery in y.ledger.deliveries
    ensures y'.ledger.retries[key].sourceRevision == y.ledger.deliveries[key.delivery].revision
  {
    hide Step, ClaimsDue;
    var event :| Next(hash, y, event, y');
    match event
    case Claims(w, keyReference, now, locked) =>
      StepOfClaim(hash, y, w, keyReference, now, locked, y');
      StepDecides(hash, y.ledger, ClaimDue(keyReference, now, locked), y'.ledger, key);
    case Reports(w) =>
      StepDecides(hash, y.ledger, ObserveEvent(Report(y.workers[w].invocation)), y'.ledger, key);
    case Acts(action) => StepDecides(hash, y.ledger, action, y'.ledger, key);
    case Invokes(_, _, _) =>
    case Stops(_) =>
  }

  lemma DecisionStays(s: Tables, s': Tables, key: RetryKey)
    requires AppendOnly(s, s') && key in s.retries
    ensures key in s'.retries && s'.retries[key] == s.retries[key]
  {
    hide Progress, SameAttempt;
  }

  lemma RevisionGrows(s: Tables, s': Tables, id: DeliveryId)
    requires AppendOnly(s, s') && id in s.deliveries
    ensures id in s'.deliveries && s.deliveries[id].revision <= s'.deliveries[id].revision
  {
    hide SameAttempt;
  }

  lemma {:induction false} NewDecisionsAreLater(
    hash: IntentId -> DeliveryId, trace: seq<World>, i: nat, j: nat, key: RetryKey)
    requires Run(hash, trace) && i <= j < |trace|
    requires key !in trace[i].ledger.retries && key in trace[j].ledger.retries
    requires key.delivery in trace[i].ledger.deliveries
    ensures trace[i].ledger.deliveries[key.delivery].revision <= trace[j].ledger.retries[key].sourceRevision
    decreases j - i
  {
    hide WorldInv, Start, Next, AppendOnly;
    if i == j {
    } else if key in trace[j - 1].ledger.retries {
      NewDecisionsAreLater(hash, trace, i, j - 1, key);
      RunIsAppendOnly(hash, trace, j - 1, j);
      DecisionStays(trace[j - 1].ledger, trace[j].ledger, key);
    } else {
      assert Follows(hash, trace[j - 1], trace[j - 1 + 1]);
      FollowsDecides(hash, trace[j - 1], trace[j], key);
      RunIsAppendOnly(hash, trace, i, j - 1);
      RevisionGrows(trace[i].ledger, trace[j - 1].ledger, key.delivery);
    }
  }

  lemma DecisionIsBelow(hash: IntentId -> DeliveryId, y: World, key: RetryKey)
    requires WorldInv(hash, y) && key in y.ledger.retries
    ensures key.delivery in y.ledger.deliveries
    ensures y.ledger.retries[key].sourceRevision < y.ledger.deliveries[key.delivery].revision
  {
    hide RowInv, SlotInv, ReceiptInv, HistoryInv, OutcomeInv, ScheduleInv, CountInv;
    assert DeliveryInv(y.ledger, key.delivery);
    assert key == RetryKey(key.delivery, key.key);
  }

  /** A delivery's decisions strictly rise: one that is taken later in a run is taken at a higher
      revision than every decision the delivery had before. */
  lemma DecisionsRise(
    hash: IntentId -> DeliveryId, trace: seq<World>, i: nat, j: nat, earlier: RetryKey, later: RetryKey)
    requires Run(hash, trace) && i <= j < |trace| && earlier.delivery == later.delivery
    requires earlier in trace[i].ledger.retries
    requires later in trace[j].ledger.retries && later !in trace[i].ledger.retries
    ensures trace[i].ledger.retries[earlier].sourceRevision < trace[j].ledger.retries[later].sourceRevision
  {
    hide Run, WorldInv;
    RunKeepsWorldInv(hash, trace, i);
    DecisionIsBelow(hash, trace[i], earlier);
    NewDecisionsAreLater(hash, trace, i, j, later);
  }

  // The schedule a claim obeys

  /** The decision taken at the highest revision. */
  ghost predicate Newest(retries: map<RetryKey, Retry>, id: DeliveryId, key: Key) {
    && RetryKey(id, key) in retries
    && forall k | RetryKey(id, k) in retries && k != key ::
         retries[RetryKey(id, k)].sourceRevision < retries[RetryKey(id, key)].sourceRevision
  }

  lemma ScheduleIsExact(maxAttempts: int, n: int, i: Invocation)
    requires SaidTryAgain(i) && RetrySchedule(maxAttempts, n, Outcome(i)).Some?
    ensures 1 <= n <= 3
    ensures RetrySchedule(maxAttempts, n, Outcome(i)) == Some(At(i) + WaitAfter(n, Pause(i)))
    ensures WaitAfter(n, Pause(i)) <= LONGEST_PAUSE
  {
    hide Outcome, SaidTryAgain, At, Pause, Accepting, Refusing;
    OutcomeIs(i);
    PauseIsShort(i);
  }

  /** The decision behind a scheduled retry: the newest, taken at the revision before, with the
      schedule the delivery waits for. An operator took it, or the policy took it on the failure
      of attempt n, for exactly one, five or thirty minutes after it was answered, or the
      provider's longer pause, which is at most a day. */
  ghost predicate Explained(y: World, id: DeliveryId, key: Key)
    requires id in y.ledger.deliveries
  {
    var d := y.ledger.deliveries[id];
    && Newest(y.ledger.retries, id, key)
    && var r := y.ledger.retries[RetryKey(id, key)];
       && r.sourceRevision + 1 == d.revision
       && r.scheduledAt.Some?
       && r.scheduledAt == d.nextAttemptAt
       && (r.kind == Automatic ==>
             && 1 <= d.attemptCount <= 3 && d.attemptCount <= |Invocations(y.log, id)|
             && var i, n := Invocations(y.log, id)[d.attemptCount - 1], d.attemptCount;
                && SaidTryAgain(i)
                && r.scheduledAt.value == At(i) + WaitAfter(n, Pause(i)) <= At(i) + LONGEST_PAUSE)
  }

  lemma ScheduledIsExplained(hash: IntentId -> DeliveryId, y: World, id: DeliveryId)
    requires WorldInv(hash, y) && id in y.ledger.deliveries
    requires y.ledger.deliveries[id].status == RetryScheduled
    ensures exists key :: Explained(y, id, key)
  {
    hide Outcome, Catalogue, SlotInv, ReceiptInv, HistoryInv, CountInv, WorkerInv, Separate, LogInv;
    hide RetrySchedule, SaidTryAgain, At, Pause, WaitAfter;
    var s, d := y.ledger, y.ledger.deliveries[id];
    assert DeliveryInv(s, id);
    var key :| Explains(s.retries, s.events, id, d, key);
    var r := s.retries[RetryKey(id, key)];
    forall k | RetryKey(id, k) in s.retries && k != key
      ensures s.retries[RetryKey(id, k)].sourceRevision < r.sourceRevision
    {
      assert RetryRow(s.retries[RetryKey(id, k)], d.revision, d.status);
    }
    if r.kind == Automatic {
      var p := s.events[key].digest.payload.dispatch;
      assert Reported(y.log, p);
      OutcomeSaysTryAgain(Invocations(y.log, id)[d.attemptCount - 1]);
      ScheduleIsExact(d.maxAttempts, d.attemptCount, Invocations(y.log, id)[d.attemptCount - 1]);
    }
    assert Explained(y, id, key);
  }

  lemma ClaimedDelivery(
    y: World, w: nat, keyReference: string, now: Time, locked: set<DeliveryId>, y': World,
    hash: IntentId -> DeliveryId)
    returns (id: DeliveryId)
    requires Next(hash, y, Claims(w, keyReference, now, locked), y')
    requires w < |y'.workers| && y'.workers[w].Holding?
    ensures id in y.ledger.deliveries && Due(y.ledger, id, now, locked)
    ensures y'.workers[w].request.delivery == id
    ensures y'.workers[w].request.attempt.sequence == y.ledger.deliveries[id].attemptCount + 1
  {
    hide ClaimsDue;
    var answer :| ClaimsDue(y.ledger, keyReference, now, locked, answer) && y' == Claimed(y, w, now, answer);
    id := AnsweredRow(y.ledger, keyReference, now, locked, answer);
  }

  lemma QueuedIsFirst(hash: IntentId -> DeliveryId, y: World, id: DeliveryId)
    requires WorldInv(hash, y) && id in y.ledger.deliveries
    ensures y.ledger.deliveries[id].status == Queued ==> y.ledger.deliveries[id].attemptCount == 0
  {
    assert DeliveryInv(y.ledger, id);
  }

  /** No retry is claimed before its schedule, and every schedule is explained. In every run, a
      claim that makes attempt n + 1 of a delivery finds it scheduled after its n attempts, its
      time come, and the decision that set the time among its rows. */
  lemma RetryWaitsForItsSchedule(
    hash: IntentId -> DeliveryId, trace: seq<World>, t: nat, w: nat, keyReference: string,
    now: Time, locked: set<DeliveryId>)
    requires Run(hash, trace) && t + 1 < |trace|
    requires Next(hash, trace[t], Claims(w, keyReference, now, locked), trace[t + 1])
    requires w < |trace[t + 1].workers| && trace[t + 1].workers[w].Holding?
    requires trace[t + 1].workers[w].request.attempt.sequence >= 2
    ensures var q := trace[t + 1].workers[w].request;
            && q.delivery in trace[t].ledger.deliveries
            && var d := trace[t].ledger.deliveries[q.delivery];
               && d.status == RetryScheduled
               && d.attemptCount == q.attempt.sequence - 1
               && d.nextAttemptAt.Some? && d.nextAttemptAt.value <= now
               && exists key :: Explained(trace[t], q.delivery, key)
  {
    hide Run, WorldInv, Explained;
    RunKeepsWorldInv(hash, trace, t);
    var id := ClaimedDelivery(trace[t], w, keyReference, now, locked, trace[t + 1], hash);
    QueuedIsFirst(hash, trace[t], id);
    ScheduledIsExplained(hash, trace[t], id);
  }

  /** The decision behind the current revision is an operator's. */
  ghost predicate DecidedManually(s: Tables, id: DeliveryId)
    requires id in s.deliveries
  {
    exists key | RetryKey(id, key) in s.retries ::
      && s.retries[RetryKey(id, key)].kind == Manual
      && s.retries[RetryKey(id, key)].sourceRevision + 1 == s.deliveries[id].revision
  }

  /** Unless an operator took the decision, attempt n + 1 starts no earlier than the policy's delay
      and the provider's own request after attempt n was observed. */
  lemma AutomaticRetryWaits(
    hash: IntentId -> DeliveryId, trace: seq<World>, t: nat, w: nat, keyReference: string,
    now: Time, locked: set<DeliveryId>)
    requires Run(hash, trace) && t + 1 < |trace|
    requires Next(hash, trace[t], Claims(w, keyReference, now, locked), trace[t + 1])
    requires w < |trace[t + 1].workers| && trace[t + 1].workers[w].Holding?
    requires trace[t + 1].workers[w].request.attempt.sequence >= 2
    ensures var q, y := trace[t + 1].workers[w].request, trace[t];
            var n := q.attempt.sequence - 1;
            && q.delivery in y.ledger.deliveries
            && (!DecidedManually(y.ledger, q.delivery) ==>
                  && n <= |Invocations(y.log, q.delivery)|
                  && var i := Invocations(y.log, q.delivery)[n - 1];
                     At(i) + WaitAfter(n, Pause(i)) <= now)
  {
    hide Run, WorldInv, Next, At, Pause, SaidTryAgain, WaitAfter;
    RetryWaitsForItsSchedule(hash, trace, t, w, keyReference, now, locked);
    var y, id := trace[t], trace[t + 1].workers[w].request.delivery;
    var key :| Explained(y, id, key);
  }

  // Attempts

  /** In every world of every run a delivery's attempts are numbered from one to its count; only
      the last can be in flight, and while the delivery is attempting it is. */
  lemma AttemptsAreNumbered(hash: IntentId -> DeliveryId, trace: seq<World>, t: nat, id: DeliveryId)
    requires Run(hash, trace) && t < |trace| && id in trace[t].ledger.deliveries
    ensures var s, d := trace[t].ledger, trace[t].ledger.deliveries[id];
            && (forall n :: AttemptId(id, n) in s.attempts <==> 1 <= n <= d.attemptCount)
            && (d.status == Attempting ==>
                  forall n | 1 <= n <= d.attemptCount ::
                    s.attempts[AttemptId(id, n)].status == Dispatching <==> n == d.attemptCount)
            && (Waiting(d.status) || d.status == Accepted ==>
                  forall n | 1 <= n <= d.attemptCount ::
                    s.attempts[AttemptId(id, n)].status != Dispatching)
  {
    hide Run, Joined, RowInv, ReceiptInv, RetryInv, ScheduleInv, HistoryInv, CountInv;
    DeliveryInRun(hash, trace, t, id);
    var s, d := trace[t].ledger, trace[t].ledger.deliveries[id];
    forall n | 1 <= n <= d.attemptCount
      ensures SlotStatus(d.status, n, d.attemptCount, s.attempts[AttemptId(id, n)].status)
    {
      assert SlotRow(s.attempts[AttemptId(id, n)], AttemptId(id, n), d.status, d.attemptCount);
    }
  }
}
