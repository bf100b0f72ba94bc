/** Which error each transaction fails with, read off its input and the tables. */
module Refusals {
  import opened Wrappers
  import opened Records
  import opened Validation
  import opened Transactions
  import opened Returns

  const LAST_REVISION := 9_007_199_254_740_991

  // Observations

  predicate WellFormedEvidence(receipt: RemoteReceipt) {
    Says(receipt.remoteId, 320) && Says(receipt.source, 160) && HexDigest(receipt.digest)
  }

  predicate WellFormedReason(failure: SanitizedFailure, outcome: DispatchOutcome) {
    && Says(failure.code, 160)
    && failure.classification == OutcomeName(outcome)
    && (failure.retryAfter.Some? ==>
          outcome == TemporaryFailure && failure.retryAfter.value <= LONGEST_PAUSE)
  }

  /** An acceptance may name a remote message; everything else has its own reason and only a
      temporary failure asks for a pause, of at most a day. */
  predicate WellFormedOutcome(p: DispatchObserved) {
    && Says(p.provider, 160)
    && (p.failure.Some? <==> p.outcome != ProviderAccepted)
    && (p.failure.Some? ==> WellFormedReason(p.failure.value, p.outcome))
    && (p.remoteReceipt.Some? ==>
          p.outcome == ProviderAccepted && WellFormedEvidence(p.remoteReceipt.value))
  }

  predicate WellFormedVerdict(p: ReceiptObserved) {
    HexDigest(p.digest) && 1 <= |p.remoteId| <= 320 && 1 <= |p.source| <= 160
  }

  /** An observation of the declared version, from its own source, that is well formed. */
  predicate WellFormedEvent(e: Envelope) {
    && e.version == 1
    && Says(e.source, 160)
    && match e.payload
       case Dispatch(p) => e.source == p.provider && WellFormedOutcome(p)
       case Authoritative(p) => e.source == p.source && WellFormedVerdict(p)
       case Invitation(_) => true
       case Undeclared => false
  }

  lemma OutcomeExactlyWhen(p: DispatchObserved)
    ensures ValidDispatchObservation(p) <==> WellFormedOutcome(p)
  {
    hide RequiredBounded, Says, ValidDigest, HexDigest;
    BoundedExactlyWhen(p.provider, 160);
    OutcomeNamesSay(p.outcome);
    if p.remoteReceipt.Some? {
      BoundedExactlyWhen(p.remoteReceipt.value.remoteId, 320);
      BoundedExactlyWhen(p.remoteReceipt.value.source, 160);
      DigestExactlyWhen(p.remoteReceipt.value.digest);
    }
    if p.failure.Some? {
      BoundedExactlyWhen(p.failure.value.code, 160);
    }
  }

  /** The observation is consumed with the same content, whenever it occurred. */
  predicate SameEvent(s: Tables, e: Envelope) {
    && e.id in s.events
    && s.events[e.id].digest.id == e.id
    && s.events[e.id].digest.version == e.version
    && s.events[e.id].digest.source == e.source
    && s.events[e.id].digest.payload == e.payload
  }

  /** The delivery has an attempt of that identity. */
  predicate Known(s: Tables, delivery: DeliveryId, attempt: AttemptId) {
    && delivery in s.deliveries && attempt in s.attempts
    && s.attempts[attempt].delivery == delivery
  }

  /** The attempt has no observation yet and its delivery waits for one. */
  predicate Open(s: Tables, delivery: DeliveryId, attempt: AttemptId) {
    && Known(s, delivery, attempt)
    && s.deliveries[delivery].status == Attempting
    && s.attempts[attempt].status == Dispatching
  }

  /** The message was delivered and the provider accepted it, or it was bounced or refused and
      the provider failed for good. */
  predicate SameStory(status: DeliveryStatus, outcome: DispatchOutcome) {
    || (status == Delivered && outcome == ProviderAccepted)
    || (status == Failed && outcome == PermanentFailure)
  }

  /** The delivery is no longer attempting, and a receipt for this attempt tells the same story. */
  predicate Late(s: Tables, p: DispatchObserved) {
    && Known(s, p.delivery, p.attempt)
    && s.deliveries[p.delivery].status != Attempting
    && (exists k | k in s.receipts :: s.receipts[k].attempt == p.attempt)
    && SameStory(s.deliveries[p.delivery].status, p.outcome)
  }

  /** The receipt or the decision that the outcome adds is there already. */
  predicate EvidenceTaken(s: Tables, e: Envelope, p: DispatchObserved) {
    || (p.outcome == ProviderAccepted && p.remoteReceipt.Some?
        && ReceiptKey(p.remoteReceipt.value.source, p.remoteReceipt.value.remoteId, AcceptedReceipt)
             in s.receipts)
    || (p.outcome == TemporaryFailure && RetryKey(p.delivery, e.id) in s.retries)
  }

  lemma DigestSameEvent(s: Tables, e: Envelope)
    ensures e.id in s.events && s.events[e.id].digest == Digest(e) <==> SameEvent(s, e)
  {
  }

  /** Why a dispatch observation fails: another one took its identity, its attempt is not known,
      is of another run, is settled otherwise or has no revision left, or its evidence is taken. */
  lemma DispatchFailsAs(s: Tables, e: Envelope, p: DispatchObserved)
    ensures var unseen, known := e.id !in s.events, Known(s, p.delivery, p.attempt);
            var own := known && s.attempts[p.attempt].run == p.run;
            var last := known && s.deliveries[p.delivery].revision >= LAST_REVISION;
            var answer := ApplyDispatch(s, e, p);
            && (answer.Success? <==>
                  || SameEvent(s, e)
                  || (unseen && own && Late(s, p))
                  || (unseen && own && Open(s, p.delivery, p.attempt) && !last && !EvidenceTaken(s, e, p)))
            && (answer == Failure(NotFound) <==> unseen && !known)
            && (answer == Failure(Internal) <==>
                  unseen && own && Open(s, p.delivery, p.attempt) && !last && EvidenceTaken(s, e, p))
            && (answer.Failure? ==> answer.error in {NotFound, Conflict, Internal})
  {
    hide CommitOutcome, Absorbed;
    DigestSameEvent(s, e);
  }

  /** The receipt is recorded already. */
  predicate Recorded(s: Tables, p: ReceiptObserved) {
    ReceiptKey(p.source, p.remoteId, FinalReceipt(p.verdict)) in s.receipts
  }

  /** Why a receipt fails: another observation took its identity, it is recorded with another
      digest, its attempt is not known or of another run, or its delivery cannot be concluded. */
  lemma ReceiptFailsAs(s: Tables, e: Envelope, p: ReceiptObserved)
    ensures var unseen, known := e.id !in s.events, Known(s, p.delivery, p.attempt);
            var answer := ApplyReceipt(s, e, p);
            && (answer.Success? <==>
                  || SameEvent(s, e)
                  || (unseen && Recorded(s, p)
                      && s.receipts[ReceiptKey(p.source, p.remoteId, FinalReceipt(p.verdict))].digest == p.digest)
                  || (unseen && !Recorded(s, p) && known
                      && s.attempts[p.attempt].run == p.run
                      && (s.deliveries[p.delivery].status == Attempting
                          || s.deliveries[p.delivery].status == Accepted)
                      && s.deliveries[p.delivery].revision < LAST_REVISION))
            && (answer == Failure(NotFound) <==> unseen && !Recorded(s, p) && !known)
            && (answer.Failure? ==> answer.error in {NotFound, Conflict})
  {
    hide CommitVerdict;
    DigestSameEvent(s, e);
  }

  lemma LifecycleIsRead(s: Tables, e: Envelope, p: LifecycleObserved)
    ensures ApplyLifecycle(s, e, p) != Failure(Validation)
  {
    hide Cancelled, CancelledBy;
  }

  /** An observation that is not well formed is refused before any table is read. */
  lemma MalformedIsRefused(s: Tables, e: Envelope)
    ensures Apply(s, e) == Failure(Validation) <==> !WellFormedEvent(e)
  {
    hide RequiredBounded, Says, ValidDigest, HexDigest, WellFormedOutcome, ValidDispatchObservation;
    hide ApplyDispatch, ApplyReceipt, ApplyLifecycle, Known, Open, Late, EvidenceTaken;
    BoundedExactlyWhen(e.source, 160);
    match e.payload
    case Dispatch(p) =>
      OutcomeExactlyWhen(p);
      DispatchFailsAs(s, e, p);
    case Authoritative(p) =>
      DigestExactlyWhen(p.digest);
      ReceiptFailsAs(s, e, p);
    case Invitation(p) => LifecycleIsRead(s, e, p);
    case Undeclared =>
  }
}
