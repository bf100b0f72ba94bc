/** What each ledger transaction does when it commits, and why it fails when it does not, as a
    function of the tables. A `Failure` leaves the tables as they were. Class `Ledger` carries
    out the same transactions statement by statement. */
module Transactions {
  import opened Wrappers
  import opened Records
  import opened Validation

  // Retry policy

  /** One, five and thirty minutes. */
  const DELAYS: seq<Time> := [60_000, 300_000, 1_800_000]

  function DelayAfter(completedAttempt: int): Option<Time> {
    if 1 <= completedAttempt <= |DELAYS| then Some(DELAYS[completedAttempt - 1]) else None
  }

  function NextAt(maxAttempts: int, completedAttempt: int, now: Time): Option<Time> {
    if completedAttempt >= maxAttempts then
      None
    else
      match DelayAfter(completedAttempt)
      case None => None
      case Some(delay) => Some(now + delay)
  }

  function Max(a: int, b: int): int { if a < b then b else a }

  function Min(a: int, b: int): int { if a < b then a else b }

  /** When a temporary failure is tried again: after the policy's delay or the provider's own
      request, whichever is later; `None` when the attempts are used up. */
  function RetrySchedule(maxAttempts: int, completedAttempt: int, p: DispatchObserved): Option<Time> {
    match NextAt(maxAttempts, completedAttempt, p.observedAt)
    case None => None
    case Some(at) =>
      if p.failure.Some? && p.failure.value.retryAfter.Some? then
        Some(Max(at, p.observedAt + Min(p.failure.value.retryAfter.value, RETRY_AFTER_LIMIT)))
      else
        Some(at)
  }

  // Consumed events

  function Digest(e: Envelope): EventDigest {
    EventDigest(e.id, e.version, e.source, e.payload)
  }

  datatype Admission = Admitted(tables: Tables) | Replayed | Altered

  function ClaimEvent(s: Tables, e: Envelope, at: Time): Admission {
    if e.id !in s.events then
      Admitted(s.(events := s.events[e.id := ConsumedEvent(Digest(e), at)]))
    else if s.events[e.id].digest == Digest(e) then
      Replayed
    else
      Altered
  }

  /** The join of deliveries and attempts on the identities an observation names. */
  predicate Matched(s: Tables, delivery: DeliveryId, attempt: AttemptId) {
    && delivery in s.deliveries
    && attempt in s.attempts
    && s.attempts[attempt].delivery == delivery
  }

  predicate HasReceipt(s: Tables, attempt: AttemptId) {
    exists k | k in s.receipts :: s.receipts[k].attempt == attempt
  }

  function Finalized(d: Delivery, status: DeliveryStatus, reason: FinalReason, now: Time): Delivery {
    d.(status := status, revision := d.revision + 1, nextAttemptAt := None,
       finalAt := Some(now), finalReason := Some(reason), updatedAt := now)
  }

  // Dispatch observations

  predicate LateObservationIsCompatible(
    status: DeliveryStatus, hasReceipt: bool, outcome: DispatchOutcome)
  {
    && hasReceipt
    && (|| (status == Delivered && outcome == ProviderAccepted)
        || (status == Failed && outcome == PermanentFailure))
  }

  function Coalesce<T>(first: Option<T>, second: Option<T>): Option<T> {
    if first.Some? then first else second
  }

  function RemoteIdOf(p: DispatchObserved): Option<string> {
    match p.remoteReceipt case None => None case Some(r) => Some(r.remoteId)
  }

  function RemoteSourceOf(p: DispatchObserved): Option<string> {
    match p.remoteReceipt case None => None case Some(r) => Some(r.source)
  }

  function RemoteDigestOf(p: DispatchObserved): Option<string> {
    match p.remoteReceipt case None => None case Some(r) => Some(r.digest)
  }

  function FailureCodeOf(p: DispatchObserved): Option<string> {
    match p.failure case None => None case Some(f) => Some(f.code)
  }

  function FailureClassOf(p: DispatchObserved): Option<string> {
    match p.failure case None => None case Some(f) => Some(f.classification)
  }

  /** The attempt's own observation replaces its metadata. */
  function Observed(a: Attempt, status: AttemptStatus, p: DispatchObserved): Attempt {
    a.(status := status, provider := Some(p.provider), remoteId := RemoteIdOf(p),
       remoteSource := RemoteSourceOf(p), remoteDigest := RemoteDigestOf(p),
       failureCode := FailureCodeOf(p), failureClass := FailureClassOf(p),
       completedAt := Some(p.observedAt))
  }

  /** A late observation only fills metadata that is still missing. */
  function Absorbed(a: Attempt, p: DispatchObserved): Attempt {
    a.(provider := Coalesce(a.provider, Some(p.provider)),
       remoteId := Coalesce(a.remoteId, RemoteIdOf(p)),
       remoteSource := Coalesce(a.remoteSource, RemoteSourceOf(p)),
       remoteDigest := Coalesce(a.remoteDigest, RemoteDigestOf(p)),
       failureCode := Coalesce(a.failureCode, FailureCodeOf(p)),
       failureClass := Coalesce(a.failureClass, FailureClassOf(p)),
       completedAt := Coalesce(a.completedAt, Some(p.observedAt)))
  }

  function StatusFor(outcome: DispatchOutcome): AttemptStatus {
    match outcome
    case ProviderAccepted => Taken
    case TemporaryFailure => TemporarilyFailed
    case PermanentFailure => PermanentlyFailed
    case OutcomeUnknown => Ambiguous
  }

  /** An acceptance that names a remote message adds an acceptance receipt. */
  predicate AddsReceipt(p: DispatchObserved) {
    p.outcome == ProviderAccepted && p.remoteReceipt.Some?
  }

  function AcceptanceKey(p: DispatchObserved): ReceiptKey
    requires AddsReceipt(p)
  {
    ReceiptKey(p.remoteReceipt.value.source, p.remoteReceipt.value.remoteId, AcceptedReceipt)
  }

  /** A unique key that the outcome's evidence would need is already taken. */
  predicate EvidenceClashes(s: Tables, e: Envelope, p: DispatchObserved) {
    || (AddsReceipt(p) && AcceptanceKey(p) in s.receipts)
    || (p.outcome == TemporaryFailure && RetryKey(p.delivery, e.id) in s.retries)
  }

  function AcceptedRow(d: Delivery, at: Time): Delivery {
    d.(status := Accepted, revision := d.revision + 1, acceptedAt := Some(at), updatedAt := at)
  }

  function RescheduledRow(d: Delivery, next: Time, at: Time): Delivery {
    d.(status := RetryScheduled, revision := d.revision + 1, nextAttemptAt := Some(next),
       updatedAt := at)
  }

  /** The delivery row after the first observation of its attempt in flight. */
  function ObservedRow(d: Delivery, p: DispatchObserved): Delivery {
    match p.outcome
    case ProviderAccepted => AcceptedRow(d, p.observedAt)
    case TemporaryFailure =>
      (match RetrySchedule(d.maxAttempts, d.attemptCount, p)
       case Some(next) => RescheduledRow(d, next, p.observedAt)
       case None => Finalized(d, Failed, RetryExhausted, p.observedAt))
    case PermanentFailure => Finalized(d, Failed, PermanentFailureReported, p.observedAt)
    case OutcomeUnknown => Finalized(d, DeliveryUnknown, AmbiguousExternalEffect, p.observedAt)
  }

  function AcceptanceReceipt(p: DispatchObserved): Receipt
    requires AddsReceipt(p)
  {
    Receipt(p.delivery, p.attempt, p.remoteReceipt.value.digest, p.observedAt, p.observedAt)
  }

  /** The automatic decision that a temporary failure records. */
  function AutomaticDecision(d: Delivery, p: DispatchObserved): Retry {
    var next := RetrySchedule(d.maxAttempts, d.attemptCount, p);
    Retry(Automatic, None, d.revision, if next.Some? then Scheduled else Rejected, next, p.observedAt)
  }

  /** What the first observation of a delivery's attempt in flight writes. */
  function CommitOutcome(s: Tables, e: Envelope, p: DispatchObserved): Tables
    requires Matched(s, p.delivery, p.attempt)
  {
    var d, a := s.deliveries[p.delivery], s.attempts[p.attempt];
    s.(deliveries := s.deliveries[p.delivery := ObservedRow(d, p)],
       attempts := s.attempts[p.attempt := Observed(a, StatusFor(p.outcome), p)],
       receipts := if AddsReceipt(p) then s.receipts[AcceptanceKey(p) := AcceptanceReceipt(p)]
                   else s.receipts,
       retries := if p.outcome == TemporaryFailure then
                    s.retries[RetryKey(p.delivery, e.id) := AutomaticDecision(d, p)]
                  else
                    s.retries)
  }

  function ApplyDispatch(s: Tables, e: Envelope, p: DispatchObserved): Result<Tables> {
    match ClaimEvent(s, e, p.observedAt)
    case Replayed => Success(s)
    case Altered => Failure(Conflict)
    case Admitted(s1) =>
      if !Matched(s1, p.delivery, p.attempt) then
        Failure(NotFound)
      else
        var d, a := s1.deliveries[p.delivery], s1.attempts[p.attempt];
        if a.run != p.run then
          Failure(Conflict)
        else if d.status != Attempting then
          if LateObservationIsCompatible(d.status, HasReceipt(s1, p.attempt), p.outcome) then
            Success(s1.(attempts := s1.attempts[p.attempt := Absorbed(a, p)]))
          else
            Failure(Conflict)
        else if a.status != Dispatching || d.revision >= MAX_SAFE_WIRE_INTEGER then
          Failure(Conflict)
        else if EvidenceClashes(s1, e, p) then
          Failure(Internal)
        else
          Success(CommitOutcome(s1, e, p))
  }

  // Authoritative receipts

  function ReceiptKeyOf(p: ReceiptObserved): ReceiptKey {
    ReceiptKey(p.source, p.remoteId, FinalReceipt(p.verdict))
  }

  function VerdictReceipt(e: Envelope, p: ReceiptObserved): Receipt {
    Receipt(p.delivery, p.attempt, p.digest, p.observedAt, e.occurredAt)
  }

  function Confirmed(a: Attempt, p: ReceiptObserved): Attempt {
    a.(status := if p.verdict == ReachedRecipient then Taken else PermanentlyFailed,
       completedAt := Coalesce(a.completedAt, Some(p.observedAt)))
  }

  /** A delivered row keeps its `nextAttemptAt`, as the update statement does not mention it. */
  function Concluded(d: Delivery, p: ReceiptObserved): Delivery {
    if p.verdict == ReachedRecipient then
      d.(status := Delivered, revision := d.revision + 1,
         acceptedAt := Coalesce(d.acceptedAt, Some(p.observedAt)),
         deliveredAt := Some(p.observedAt), finalAt := Some(p.observedAt),
         finalReason := Some(AuthoritativeDeliveryReceipt), updatedAt := p.observedAt)
    else
      Finalized(d, Failed, ReceiptRefused(p.verdict), p.observedAt)
  }

  function CommitVerdict(s: Tables, e: Envelope, p: ReceiptObserved): Tables
    requires Matched(s, p.delivery, p.attempt)
  {
    s.(receipts := s.receipts[ReceiptKeyOf(p) := VerdictReceipt(e, p)],
       attempts := s.attempts[p.attempt := Confirmed(s.attempts[p.attempt], p)],
       deliveries := s.deliveries[p.delivery := Concluded(s.deliveries[p.delivery], p)])
  }

  function ApplyReceipt(s: Tables, e: Envelope, p: ReceiptObserved): Result<Tables> {
    match ClaimEvent(s, e, p.observedAt)
    case Replayed => Success(s)
    case Altered => Failure(Conflict)
    case Admitted(s1) =>
      var key := ReceiptKeyOf(p);
      if key in s1.receipts then
        if s1.receipts[key].digest == p.digest then Success(s1) else Failure(Conflict)
      else if !Matched(s1, p.delivery, p.attempt) then
        Failure(NotFound)
      else
        var d, a := s1.deliveries[p.delivery], s1.attempts[p.attempt];
        if a.run != p.run || d.status !in {Attempting, Accepted}
           || d.revision >= MAX_SAFE_WIRE_INTEGER then
          Failure(Conflict)
        else
          Success(CommitVerdict(s1, e, p))
  }

  // Invitation lifecycle

  predicate CancelledBy(s: Tables, id: DeliveryId, source: string, p: LifecycleObserved) {
    && id in s.deliveries
    && s.deliveries[id].intent in s.intents
    && var key, intent := s.deliveries[id].intent, s.intents[s.deliveries[id].intent];
       && key.caller == source
       && intent.entityType == "organization_invitation"
       && intent.entityId == p.invitation
       && intent.requestedAt <= p.observedAt
       && Waiting(s.deliveries[id].status)
  }

  function CancelledRow(d: Delivery, e: Envelope, p: LifecycleObserved): Delivery {
    Finalized(d, Failed, SourceInvitation(p.lifecycle), e.occurredAt)
  }

  function Cancelled(s: Tables, e: Envelope, p: LifecycleObserved): map<DeliveryId, Delivery> {
    map id | id in s.deliveries ::
      if CancelledBy(s, id, e.source, p) then CancelledRow(s.deliveries[id], e, p)
      else s.deliveries[id]
  }

  function ApplyLifecycle(s: Tables, e: Envelope, p: LifecycleObserved): Result<Tables> {
    match ClaimEvent(s, e, p.observedAt)
    case Replayed => Success(s)
    case Altered => Failure(Conflict)
    case Admitted(s1) =>
      if exists id | id in s1.deliveries ::
           CancelledBy(s1, id, e.source, p) && s1.deliveries[id].revision >= MAX_SAFE_WIRE_INTEGER
      then
        Failure(Conflict)
      else if e.id in s1.lifecycle then
        Failure(Internal)
      else
        Success(s1.(
                lifecycle := s1.lifecycle[
                  e.id := LifecycleEvent(
                    e.source, p.invitation, p.lifecycle, p.observedAt, e.occurredAt)],
                deliveries := Cancelled(s1, e, p)))
  }

  /** The entry point for every observation: validate, then run its transaction. */
  function Apply(s: Tables, e: Envelope): Result<Tables> {
    if !ValidContract(e) then
      Failure(Validation)
    else
      match e.payload
      case Dispatch(p) =>
        if e.source != p.provider || !ValidDispatchObservation(p) then
          Failure(Validation)
        else
          ApplyDispatch(s, e, p)
      case Authoritative(p) =>
        if e.source != p.source || !ValidReceipt(p) then
          Failure(Validation)
        else
          ApplyReceipt(s, e, p)
      case Invitation(p) => ApplyLifecycle(s, e, p)
  }

  // Claiming due work

  /** The intent, its snapshot and the snapshot's release are all present. */
  predicate Joined(s: Tables, key: IntentKey) {
    && key in s.intents
    && s.intents[key].digest in s.snapshots
    && s.snapshots[s.intents[key].digest].release in s.releases
  }

  /** The rows a claim at `now` may pick: waiting, due, not used up, and not locked by another
      transaction, whose rows are skipped. */
  predicate Due(s: Tables, id: DeliveryId, now: Time, locked: set<DeliveryId>) {
    && id in s.deliveries
    && id !in locked
    && var d := s.deliveries[id];
       && Waiting(d.status)
       && d.nextAttemptAt.Some?
       && d.nextAttemptAt.value <= now
       && d.attemptCount < d.maxAttempts
       && Joined(s, d.intent)
  }

  /** The claim's order: earliest next attempt first, then smallest identity. */
  predicate ClaimedBefore(s: Tables, a: DeliveryId, b: DeliveryId)
    requires a in s.deliveries && s.deliveries[a].nextAttemptAt.Some?
    requires b in s.deliveries && s.deliveries[b].nextAttemptAt.Some?
  {
    var x, y := s.deliveries[a].nextAttemptAt.value, s.deliveries[b].nextAttemptAt.value;
    x < y || (x == y && a <= b)
  }

  ghost predicate FirstDue(s: Tables, id: DeliveryId, now: Time, locked: set<DeliveryId>) {
    && Due(s, id, now, locked)
    && forall other :: Due(s, other, now, locked) ==> ClaimedBefore(s, id, other)
  }

  /** Some row of a non-empty set of due rows comes first. */
  lemma {:induction false} FirstDueExists(
    s: Tables, now: Time, locked: set<DeliveryId>, due: set<DeliveryId>, some: DeliveryId)
    returns (first: DeliveryId)
    requires some in due
    requires forall id :: id in due ==> Due(s, id, now, locked)
    ensures first in due && Due(s, first, now, locked)
    ensures forall id :: id in due ==> Due(s, id, now, locked) && ClaimedBefore(s, first, id)
    decreases |due|
  {
    first := some;
    var rest := due - {some};
    if other :| other in rest {
      var best := FirstDueExists(s, now, locked, rest, other);
      first := if ClaimedBefore(s, best, some) then best else some;
    }
    forall id | id in due ensures Due(s, id, now, locked) && ClaimedBefore(s, first, id) {
      assert id == some || id in rest;
    }
  }

  lemma FirstDueIsUnique(s: Tables, id: DeliveryId, id': DeliveryId, now: Time, locked: set<DeliveryId>)
    requires FirstDue(s, id, now, locked) && FirstDue(s, id', now, locked)
    ensures id == id'
  {
    assert ClaimedBefore(s, id, id') && ClaimedBefore(s, id', id);
  }

  function Reveal(keyReference: string, sealed: Sealed): Result<string> {
    if sealed.keyReference == keyReference then Success(sealed.plaintext) else Failure(Validation)
  }

  function RequestFor(s: Tables, keyReference: string, id: DeliveryId, attempt: AttemptId)
    : Result<DispatchRequest>
    requires id in s.deliveries && Joined(s, s.deliveries[id].intent)
  {
    var intent := s.intents[s.deliveries[id].intent];
    var snapshot := s.snapshots[intent.digest];
    var address :- Reveal(keyReference, intent.recipient);
    var subject :- Reveal(keyReference, snapshot.subject);
    var text :- Reveal(keyReference, snapshot.text);
    var html :- Reveal(keyReference, snapshot.html);
    Success(DispatchRequest(
            id, attempt, RunId(attempt), attempt, address, snapshot.release, intent.locale,
            subject, text, html, snapshot.contentDigest, intent.correlation))
  }

  function NewAttempt(attempt: AttemptId, now: Time): Attempt {
    Attempt(attempt.delivery, attempt.sequence, RunId(attempt), Dispatching,
            None, None, None, None, None, None, now, None)
  }

  function ClaimedRow(d: Delivery, now: Time): Delivery {
    d.(status := Attempting, revision := d.revision + 1, attemptCount := d.attemptCount + 1,
       nextAttemptAt := None, updatedAt := now)
  }

  function CommitClaim(s: Tables, id: DeliveryId, now: Time): Tables
    requires id in s.deliveries
  {
    var d := s.deliveries[id];
    var attempt := AttemptId(id, d.attemptCount + 1);
    s.(deliveries := s.deliveries[id := ClaimedRow(d, now)],
       attempts := s.attempts[attempt := NewAttempt(attempt, now)])
  }

  /** Claiming the row `id`, once it has been picked. */
  function ClaimRow(s: Tables, keyReference: string, id: DeliveryId, now: Time)
    : Result<(Tables, DispatchRequest)>
    requires id in s.deliveries && Joined(s, s.deliveries[id].intent)
  {
    var d := s.deliveries[id];
    var attempt := AttemptId(id, d.attemptCount + 1);
    if d.revision >= MAX_SAFE_WIRE_INTEGER || d.attemptCount + 1 > d.maxAttempts then
      Failure(Conflict)
    else
      var request :- RequestFor(s, keyReference, id, attempt);
      if attempt in s.attempts then
        Failure(Internal)
      else
        Success((CommitClaim(s, id, now), request))
  }

  function ClaimAnswer(s: Tables, keyReference: string, id: DeliveryId, now: Time)
    : Result<(Tables, Option<DispatchRequest>)>
    requires id in s.deliveries && Joined(s, s.deliveries[id].intent)
  {
    var (s', request) :- ClaimRow(s, keyReference, id, now);
    Success((s', Some(request)))
  }

  /** `next` is what a claim at `now` answers: nothing when no row is due, otherwise the claim
      of the first due row. */
  ghost predicate ClaimsDue(
    s: Tables, keyReference: string, now: Time, locked: set<DeliveryId>,
    next: Result<(Tables, Option<DispatchRequest>)>)
  {
    if exists id :: Due(s, id, now, locked) then
      exists id :: FirstDue(s, id, now, locked) && next == ClaimAnswer(s, keyReference, id, now)
    else
      next == Success((s, None))
  }

  /** The claim has one answer: the order it follows leaves no choice of row. */
  lemma ClaimIsDetermined(
    s: Tables, keyReference: string, now: Time, locked: set<DeliveryId>,
    x: Result<(Tables, Option<DispatchRequest>)>, y: Result<(Tables, Option<DispatchRequest>)>)
    requires ClaimsDue(s, keyReference, now, locked, x)
    requires ClaimsDue(s, keyReference, now, locked, y)
    ensures x == y
  {
    hide ClaimAnswer;
    if id, id' :| FirstDue(s, id, now, locked) && x == ClaimAnswer(s, keyReference, id, now)
                  && FirstDue(s, id', now, locked) && y == ClaimAnswer(s, keyReference, id', now) {
      FirstDueIsUnique(s, id, id', now, locked);
    }
  }

  // Manual retry

  datatype RetryAnswer =
    RetryAnswer(revision: int, status: DeliveryStatus, scheduledAt: Time, replay: bool)

  function RetriedRow(d: Delivery, now: Time): Delivery {
    d.(nextAttemptAt := Some(now), revision := d.revision + 1, updatedAt := now)
  }

  function RequestManualRetry(
    s: Tables, id: DeliveryId, expectedRevision: int, key: Key, requestedBy: string, now: Time)
    : Result<(Tables, RetryAnswer)>
  {
    var retryKey := RetryKey(id, key);
    if retryKey in s.retries && id in s.deliveries then
      match s.retries[retryKey].scheduledAt
      case None => Failure(Conflict)
      case Some(at) =>
        Success((s, RetryAnswer(s.deliveries[id].revision, s.deliveries[id].status, at, true)))
    else if id !in s.deliveries then
      Failure(NotFound)
    else
      var d := s.deliveries[id];
      if || d.revision != expectedRevision
         || d.revision >= MAX_SAFE_WIRE_INTEGER
         || d.status != RetryScheduled
         || d.attemptCount >= d.maxAttempts
      then
        Failure(Conflict)
      else
        var row := Retry(Manual, Some(requestedBy), expectedRevision, Scheduled, Some(now), now);
        Success((s.(deliveries := s.deliveries[id := RetriedRow(d, now)],
                    retries := s.retries[retryKey := row]),
                 RetryAnswer(d.revision + 1, RetryScheduled, now, false)))
  }

  // Creating intents

  datatype IntentReceipt = IntentReceipt(delivery: DeliveryId, status: DeliveryStatus, replay: bool)

  predicate ValidRequest(request: IntentRequest, now: Time) {
    request.expiresAt.Some? ==> now < request.expiresAt.value
  }

  predicate ValidRendered(request: IntentRequest, rendered: Rendered) {
    && rendered.release.templateId == request.templateId
    && rendered.release.version == "v1"
    && rendered.requestedLocale == request.locale
    && rendered.fallbackUsed == (rendered.requestedLocale != rendered.release.locale)
    && RequiredBounded(rendered.release.locale, 32) && 2 <= |rendered.release.locale|
    && RequiredBounded(rendered.renderer, 160)
    && ValidDigest(rendered.templateDigest)
    && RequiredBounded(rendered.subject, 998)
    && '\r' !in rendered.subject && '\n' !in rendered.subject
    && RequiredBounded(rendered.text, 131_072)
    && RequiredBounded(rendered.html, 262_144)
    && rendered.contentDigest == ContentDigest(rendered.subject, rendered.text, rendered.html)
  }

  /** The idempotency lookup: no answer, the stored receipt, or a conflict. */
  function FindIntent(s: Tables, hash: IntentId -> DeliveryId, request: IntentRequest)
    : Result<Option<IntentReceipt>>
  {
    if request.key !in s.intents then
      Success(None)
    else
      var stored := s.intents[request.key].digest;
      var id := hash(IntentId(request.key, stored));
      if id !in s.deliveries then
        Success(None)
      else if stored != RequestDigest(request) then
        Failure(Conflict)
      else
        Success(Some(IntentReceipt(id, s.deliveries[id].status, true)))
  }

  /** The lock-free lookup a create performs before it renders. */
  function FindReplay(s: Tables, hash: IntentId -> DeliveryId, request: IntentRequest, now: Time)
    : Result<Option<IntentReceipt>>
  {
    if !ValidRequest(request, now) then Failure(Validation) else FindIntent(s, hash, request)
  }

  function LastAt(address: string): (at: Option<nat>)
    ensures at.Some? ==> at.value < |address| && address[at.value] == '@' && '@' !in address[at.value + 1..]
    ensures at.None? ==> '@' !in address
  {
    if address == "" then None
    else if address[|address| - 1] == '@' then Some(|address| - 1)
    else LastAt(address[..|address| - 1])
  }

  /** Shows the first character of an address and what follows its last at sign. */
  function MaskEmail(address: string): string {
    match LastAt(address)
    case None => "***"
    case Some(at) => [if at == 0 then '*' else address[0]] + "***@" + address[at + 1..]
  }

  /** The table's bounds on the mask of a recipient. */
  predicate MaskFits(address: string) {
    3 <= |MaskEmail(address)| <= 320
  }

  function ReleaseOf(rendered: Rendered, now: Time): Release {
    Release(rendered.renderer, rendered.templateDigest, now)
  }

  function SnapshotOf(rendered: Rendered, keyReference: string, now: Time): Snapshot {
    Snapshot(rendered.release, Sealed(keyReference, rendered.subject),
             Sealed(keyReference, rendered.text), Sealed(keyReference, rendered.html),
             rendered.contentDigest, now)
  }

  function IntentOf(request: IntentRequest, keyReference: string, now: Time): Intent {
    Intent(RequestDigest(request), request.entityType, request.entityId,
           Sealed(keyReference, request.address), MaskEmail(request.address), request.locale, request.correlation, now)
  }

  function QueuedRow(key: IntentKey, now: Time): Delivery {
    Delivery(key, Queued, 1, 0, 4, Some(now), None, None, None, None, now, now)
  }

  function CommitCreate(
    s: Tables, id: DeliveryId, request: IntentRequest, rendered: Rendered, keyReference: string,
    now: Time)
    : Tables
  {
    s.(releases := if rendered.release in s.releases then s.releases
                   else s.releases[rendered.release := ReleaseOf(rendered, now)],
       snapshots := s.snapshots[
         RequestDigest(request) := SnapshotOf(rendered, keyReference, now)],
       intents := s.intents[request.key := IntentOf(request, keyReference, now)],
       deliveries := s.deliveries[id := QueuedRow(request.key, now)])
  }

  function CreateIntent(
    s: Tables, hash: IntentId -> DeliveryId, request: IntentRequest, rendered: Rendered,
    keyReference: string, now: Time)
    : Result<(Tables, IntentReceipt)>
  {
    if !ValidRequest(request, now) then
      Failure(Validation)
    else if !ValidRendered(request, rendered) then
      Failure(Internal)
    else
      var existing :- FindIntent(s, hash, request);
      match existing
      case Some(receipt) => Success((s, receipt))
      case None =>
        var digest := RequestDigest(request);
        var id := hash(IntentId(request.key, digest));
        if && rendered.release in s.releases
           && s.releases[rendered.release].templateDigest != rendered.templateDigest
        then
          Failure(Internal)
        else if !MaskFits(request.address) then
          Failure(Internal)
        else if digest in s.snapshots || request.key in s.intents || id in s.deliveries then
          Failure(Internal)
        else
          Success((CommitCreate(s, id, request, rendered, keyReference, now),
                   IntentReceipt(id, Queued, false)))
  }
}
