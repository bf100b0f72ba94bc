/** The checks an observation passes before it may touch the ledger, and the translation of
    every way a provider call can return into an observation that passes them. */
module Validation {
  import opened Wrappers
  import opened Records

  const RETRY_AFTER_LIMIT: nat := 86_400_000

  // Text checks

  /** The Unicode white space that trimming removes. */
  predicate IsWhiteSpace(c: char) {
    || '\U{9}' <= c <= '\U{D}' || c == ' ' || c == '\U{85}' || c == '\U{A0}' || c == '\U{1680}'
    || '\U{2000}' <= c <= '\U{200A}' || c == '\U{2028}' || c == '\U{2029}' || c == '\U{202F}'
    || c == '\U{205F}' || c == '\U{3000}'
  }

  predicate Blank(s: string) {
    forall c | c in s :: IsWhiteSpace(c)
  }

  predicate RequiredBounded(s: string, limit: nat) {
    !Blank(s) && |s| <= limit
  }

  predicate IsLowerHex(c: char) {
    '0' <= c <= '9' || 'a' <= c <= 'f'
  }

  predicate ValidDigest(s: string) {
    && "sha256:" <= s
    && |s| == 7 + 64
    && forall i | 7 <= i < |s| :: IsLowerHex(s[i])
  }

  /** A Plugin instance key. */
  predicate ValidInstance(s: string) {
    && 0 < |s| <= 160
    && forall c | c in s ::
         'a' <= c <= 'z' || 'A' <= c <= 'Z' || '0' <= c <= '9' || c in {'.', '_', '-', '/'}
  }

  // Observations

  function Classification(outcome: DispatchOutcome): string {
    match outcome
    case ProviderAccepted => ""
    case TemporaryFailure => "temporary_failure"
    case PermanentFailure => "permanent_failure"
    case OutcomeUnknown => "delivery_unknown"
  }

  predicate ValidFailure(failure: SanitizedFailure, classification: string) {
    && RequiredBounded(failure.code, 160)
    && RequiredBounded(failure.classification, 160)
    && failure.classification == classification
  }

  predicate ValidRemoteReceipt(receipt: RemoteReceipt) {
    && ValidDigest(receipt.digest)
    && RequiredBounded(receipt.remoteId, 320)
    && RequiredBounded(receipt.source, 160)
  }

  predicate ValidDispatchObservation(p: DispatchObserved) {
    && RequiredBounded(p.provider, 160)
    && (p.remoteReceipt.Some? ==> ValidRemoteReceipt(p.remoteReceipt.value))
    && if p.outcome == ProviderAccepted then
         p.failure.None?
       else
         && p.remoteReceipt.None?
         && p.failure.Some?
         && ValidFailure(p.failure.value, Classification(p.outcome))
         && (p.failure.value.retryAfter.Some? ==>
               && p.outcome == TemporaryFailure
               && p.failure.value.retryAfter.value <= RETRY_AFTER_LIMIT)
  }

  predicate ValidReceipt(p: ReceiptObserved) {
    && ValidDigest(p.digest)
    && 0 < |p.remoteId| <= 320
    && 0 < |p.source| <= 160
  }

  predicate ValidContract(e: Envelope) {
    && e.payload != Undeclared
    && e.version == 1
    && RequiredBounded(e.source, 160)
  }

  // What a provider call can return

  datatype ResponseFailure =
    ResponseFailure(code: string, classification: string, retryAfter: Option<int>)

  /** `observedAt` is `None` when the response's timestamp is out of bounds or does not parse. */
  datatype DispatchResponse = DispatchResponse(
    provider: string,
    observedAt: Option<Time>,
    outcome: DispatchOutcome,
    remoteReceipt: Option<RemoteReceipt>,
    failure: Option<ResponseFailure>)

  datatype ProviderResult =
    | Responded(response: DispatchResponse)
    | InvalidDispatch
    | UnsupportedMessage
    | UnknownDomainError
    | RuntimeFailure

  predicate ValidResponseFailure(failure: ResponseFailure, classification: string) {
    && RequiredBounded(failure.code, 160)
    && RequiredBounded(failure.classification, 160)
    && failure.classification == classification
  }

  predicate ValidResponse(response: DispatchResponse, instance: string) {
    && response.provider == instance
    && response.observedAt.Some?
    && (response.remoteReceipt.Some? ==>
          && RequiredBounded(response.remoteReceipt.value.remoteId, 320)
          && response.remoteReceipt.value.source == instance
          && ValidDigest(response.remoteReceipt.value.digest))
    && match response.outcome
       case ProviderAccepted => response.failure.None?
       case TemporaryFailure =>
         && response.remoteReceipt.None?
         && response.failure.Some?
         && ValidResponseFailure(response.failure.value, "temporary_failure")
         && (response.failure.value.retryAfter.Some? ==>
               0 <= response.failure.value.retryAfter.value <= RETRY_AFTER_LIMIT)
       case PermanentFailure =>
         && response.remoteReceipt.None?
         && response.failure.Some?
         && ValidResponseFailure(response.failure.value, "permanent_failure")
         && response.failure.value.retryAfter.None?
       case OutcomeUnknown =>
         && response.remoteReceipt.None?
         && response.failure.Some?
         && ValidResponseFailure(response.failure.value, "delivery_unknown")
         && response.failure.value.retryAfter.None?
  }

  function FailureObservation(
    request: DispatchRequest, instance: string, outcome: DispatchOutcome, code: string, at: Time)
    : DispatchObserved
  {
    DispatchObserved(
      request.delivery, request.attempt, request.run, outcome, instance, at, None,
      Some(SanitizedFailure(code, Classification(outcome), None)))
  }

  function ResponseObservation(request: DispatchRequest, instance: string, response: DispatchResponse)
    : DispatchObserved
    requires ValidResponse(response, instance)
  {
    DispatchObserved(
      request.delivery, request.attempt, request.run, response.outcome, instance,
      response.observedAt.value,
      (match response.remoteReceipt
       case None => None
       case Some(receipt) => Some(RemoteReceipt(receipt.remoteId, instance, receipt.digest))),
      match response.failure
      case None => None
      case Some(failure) =>
        Some(SanitizedFailure(
               failure.code, failure.classification,
               match failure.retryAfter case None => None case Some(ms) => Some(ms))))
  }

  /** The observation a worker records for a provider call it started at `now`. */
  function Observe(request: DispatchRequest, instance: string, now: Time, result: ProviderResult)
    : DispatchObserved
  {
    match result
    case Responded(response) =>
      if ValidResponse(response, instance) then
        ResponseObservation(request, instance, response)
      else
        FailureObservation(request, instance, OutcomeUnknown, "email_dispatch_protocol_failure", now)
    case InvalidDispatch =>
      FailureObservation(request, instance, PermanentFailure, "email_invalid_dispatch", now)
    case UnsupportedMessage =>
      FailureObservation(request, instance, PermanentFailure, "email_unsupported_message", now)
    case UnknownDomainError =>
      FailureObservation(request, instance, OutcomeUnknown, "email_dispatch_unknown_domain_error", now)
    case RuntimeFailure =>
      FailureObservation(request, instance, OutcomeUnknown, "email_dispatch_runtime_failure", now)
  }

  lemma InstanceIsBounded(instance: string)
    requires ValidInstance(instance)
    ensures RequiredBounded(instance, 160)
  {
    assert instance[0] in instance;
  }

  lemma CodesAreBounded(code: string)
    requires 0 < |code| <= 160 && 'a' <= code[0] <= 'z'
    ensures RequiredBounded(code, 160)
  {
    assert code[0] in code;
  }

  /** Every return of the provider call becomes an observation of the claimed attempt that the
      applier accepts; only a well-formed temporary failure is recorded as one. */
  lemma EveryReturnIsObservable(
    request: DispatchRequest, instance: string, now: Time, result: ProviderResult)
    requires ValidInstance(instance)
    ensures var p := Observe(request, instance, now, result);
            && ValidDispatchObservation(p)
            && p.provider == instance
            && (p.delivery, p.attempt, p.run) == (request.delivery, request.attempt, request.run)
            && (p.outcome == TemporaryFailure <==>
                  && result.Responded?
                  && result.response.outcome == TemporaryFailure
                  && ValidResponse(result.response, instance))
            && (p.outcome == ProviderAccepted <==>
                  && result.Responded?
                  && result.response.outcome == ProviderAccepted
                  && ValidResponse(result.response, instance))
  {
    InstanceIsBounded(instance);
    CodesAreBounded("permanent_failure");
    CodesAreBounded("delivery_unknown");
    CodesAreBounded("email_dispatch_protocol_failure");
    CodesAreBounded("email_invalid_dispatch");
    CodesAreBounded("email_unsupported_message");
    CodesAreBounded("email_dispatch_unknown_domain_error");
    CodesAreBounded("email_dispatch_runtime_failure");
  }
}
