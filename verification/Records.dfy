/** The rows of the Notification ledger, the observations that change them, and the
    identities that name them.

    A stable identity is a hash of a colon-joined text; module Identifiers proves that the
    texts determine their parts, so here an identity is a constructor over those parts. The
    delivery identity alone is an integer, its place in the text order that paging and
    claiming follow; it comes from the intent identity by a collision-free function that
    callers of `Transactions.CreateIntent` supply. */
module Records {
  import opened Wrappers

  const MAX_SAFE_WIRE_INTEGER := 9007199254740991

  /** Milliseconds since an arbitrary origin. */
  type Time = int
  type DeliveryId = int

  datatype AttemptId = AttemptId(delivery: DeliveryId, sequence: int)
  datatype RunId = RunId(attempt: AttemptId)

  /** Observation and retry idempotency keys share one text space: the worker's own
      `dispatch-observation:<attempt>` keys, and whatever other text a caller supplies. */
  datatype Key = DispatchObservation(attempt: AttemptId) | CallerText(text: string)

  // Intents, templates and snapshots

  datatype IntentKey = IntentKey(caller: string, idempotencyKey: string)

  /** A create request as it is digested. `details` stands for the remaining serialized fields. */
  datatype IntentRequest = IntentRequest(
    key: IntentKey,
    entityType: string,
    entityId: string,
    address: string,
    locale: string,
    templateId: string,
    expiresAt: Option<Time>,
    correlation: string,
    details: string)

  /** The request digest; the hash is taken to be collision free. */
  datatype RequestDigest = RequestDigest(request: IntentRequest)
  datatype IntentId = IntentId(key: IntentKey, digest: RequestDigest)
  datatype ContentDigest = ContentDigest(subject: string, text: string, html: string)
  datatype ReleaseKey = ReleaseKey(templateId: string, version: string, locale: string)

  datatype Release = Release(renderer: string, templateDigest: string, createdAt: Time)
  datatype Sealed = Sealed(keyReference: string, plaintext: string)
  datatype Snapshot = Snapshot(
    release: ReleaseKey,
    subject: Sealed,
    text: Sealed,
    html: Sealed,
    contentDigest: ContentDigest,
    createdAt: Time)
  datatype Intent = Intent(
    digest: RequestDigest,
    entityType: string,
    entityId: string,
    recipient: Sealed,
    recipientMask: string,
    locale: string,
    correlation: string,
    requestedAt: Time)

  datatype Rendered = Rendered(
    release: ReleaseKey,
    requestedLocale: string,
    fallbackUsed: bool,
    renderer: string,
    templateDigest: string,
    contentDigest: ContentDigest,
    subject: string,
    text: string,
    html: string)

  // Deliveries and their evidence

  datatype DeliveryStatus =
    Queued | Attempting | Accepted | RetryScheduled | Delivered | Failed | DeliveryUnknown

  /** Waiting deliveries are the ones a claim may pick and a cancellation may end. */
  predicate Waiting(status: DeliveryStatus) {
    status == Queued || status == RetryScheduled
  }

  predicate Terminal(status: DeliveryStatus) {
    status == Delivered || status == Failed || status == DeliveryUnknown
  }

  datatype FinalReason =
    | AuthoritativeDeliveryReceipt
    | RetryExhausted
    | PermanentFailureReported
    | AmbiguousExternalEffect
    | ReceiptRefused(verdict: Verdict)
    | SourceInvitation(lifecycle: Lifecycle)

  datatype Delivery = Delivery(
    intent: IntentKey,
    status: DeliveryStatus,
    revision: int,
    attemptCount: int,
    maxAttempts: int,
    nextAttemptAt: Option<Time>,
    acceptedAt: Option<Time>,
    deliveredAt: Option<Time>,
    finalAt: Option<Time>,
    finalReason: Option<FinalReason>,
    createdAt: Time,
    updatedAt: Time)

  datatype AttemptStatus = Dispatching | Taken | TemporarilyFailed | PermanentlyFailed | Ambiguous

  datatype Attempt = Attempt(
    delivery: DeliveryId,
    sequence: int,
    run: RunId,
    status: AttemptStatus,
    provider: Option<string>,
    remoteId: Option<string>,
    remoteSource: Option<string>,
    remoteDigest: Option<string>,
    failureCode: Option<string>,
    failureClass: Option<string>,
    startedAt: Time,
    completedAt: Option<Time>)

  /** What an authoritative receipt says happened. */
  datatype Verdict = ReachedRecipient | Bounced | Refused
  datatype ReceiptKind = AcceptedReceipt | FinalReceipt(verdict: Verdict)

  datatype ReceiptKey = ReceiptKey(source: string, remoteId: string, kind: ReceiptKind)
  datatype Receipt = Receipt(
    delivery: DeliveryId,
    attempt: AttemptId,
    digest: string,
    observedAt: Time,
    recordedAt: Time)

  datatype RetryKey = RetryKey(delivery: DeliveryId, key: Key)
  datatype RetryKind = Automatic | Manual
  datatype Decision = Scheduled | Rejected
  datatype Retry = Retry(
    kind: RetryKind,
    requestedBy: Option<string>,
    sourceRevision: int,
    decision: Decision,
    scheduledAt: Option<Time>,
    createdAt: Time)

  // Observations

  datatype DispatchOutcome = ProviderAccepted | TemporaryFailure | PermanentFailure | OutcomeUnknown
  datatype RemoteReceipt = RemoteReceipt(remoteId: string, source: string, digest: string)
  datatype SanitizedFailure =
    SanitizedFailure(code: string, classification: string, retryAfter: Option<nat>)

  datatype DispatchObserved = DispatchObserved(
    delivery: DeliveryId,
    attempt: AttemptId,
    run: RunId,
    outcome: DispatchOutcome,
    provider: string,
    observedAt: Time,
    remoteReceipt: Option<RemoteReceipt>,
    failure: Option<SanitizedFailure>)

  datatype ReceiptObserved = ReceiptObserved(
    delivery: DeliveryId,
    attempt: AttemptId,
    run: RunId,
    verdict: Verdict,
    source: string,
    observedAt: Time,
    remoteId: string,
    digest: string)

  datatype Lifecycle = InvitationAccepted | InvitationExpired | InvitationRevoked
  datatype LifecycleObserved = LifecycleObserved(
    lifecycle: Lifecycle,
    invitation: string,
    organization: string,
    observedAt: Time)

  datatype Payload =
    | Dispatch(dispatch: DispatchObserved)
    | Authoritative(receipt: ReceiptObserved)
    | Invitation(event: LifecycleObserved)
    | Undeclared

  datatype Envelope = Envelope(
    id: Key, version: int, source: string, occurredAt: Time, payload: Payload)

  /** What the event digest covers: everything but the occurrence time. */
  datatype EventDigest = EventDigest(id: Key, version: int, source: string, payload: Payload)
  datatype ConsumedEvent = ConsumedEvent(digest: EventDigest, consumedAt: Time)
  datatype LifecycleEvent = LifecycleEvent(
    source: string, invitation: string, lifecycle: Lifecycle, observedAt: Time, recordedAt: Time)

  // Work handed to a dispatch worker

  datatype DispatchRequest = DispatchRequest(
    delivery: DeliveryId,
    attempt: AttemptId,
    run: RunId,
    idempotencyKey: AttemptId,
    address: string,
    release: ReleaseKey,
    locale: string,
    subject: string,
    text: string,
    html: string,
    contentDigest: ContentDigest,
    correlation: string)

  /** Every table, each keyed by a unique key of its rows. */
  datatype Tables = Tables(
    releases: map<ReleaseKey, Release>,
    snapshots: map<RequestDigest, Snapshot>,
    intents: map<IntentKey, Intent>,
    deliveries: map<DeliveryId, Delivery>,
    attempts: map<AttemptId, Attempt>,
    receipts: map<ReceiptKey, Receipt>,
    retries: map<RetryKey, Retry>,
    events: map<Key, ConsumedEvent>,
    lifecycle: map<Key, LifecycleEvent>)
}
