/** What the texts and provider returns mean that the checks let through, read off the texts and
    the returns themselves. */
module Returns {
  import opened Wrappers
  import opened Records
  import opened Validation

  // Texts

  const HEX_DIGITS := "0123456789abcdef"

  const WHITE_SPACE: set<char> := {
    '\U{9}', '\U{A}', '\U{B}', '\U{C}', '\U{D}', '\U{20}', '\U{85}', '\U{A0}', '\U{1680}',
    '\U{2000}', '\U{2001}', '\U{2002}', '\U{2003}', '\U{2004}', '\U{2005}', '\U{2006}', '\U{2007}',
    '\U{2008}', '\U{2009}', '\U{200A}', '\U{2028}', '\U{2029}', '\U{202F}', '\U{205F}', '\U{3000}'}

  /** The text says something and keeps its bound. */
  predicate Says(s: string, limit: nat) {
    (exists c | c in s :: c !in WHITE_SPACE) && |s| <= limit
  }

  predicate HexDigest(s: string) {
    |s| == 71 && s[..7] == "sha256:" && forall i | 7 <= i < 71 :: s[i] in HEX_DIGITS
  }

  lemma WhiteSpaceIsListed(c: char)
    ensures IsWhiteSpace(c) <==> c in WHITE_SPACE
  {
    if '\U{9}' <= c <= '\U{D}' {
      assert c as int in {9, 10, 11, 12, 13};
    }
    if '\U{2000}' <= c <= '\U{200A}' {
      assert c as int - 0x2000 in {0, 1, 2, 3, 4, 5, 6, 7, 8, 9, 10};
    }
  }

  /** A text is bounded and not blank exactly when it has a character that is no white space. */
  lemma BoundedExactlyWhen(s: string, limit: nat)
    ensures RequiredBounded(s, limit) <==> Says(s, limit)
  {
    forall c | c in s ensures IsWhiteSpace(c) <==> c in WHITE_SPACE {
      WhiteSpaceIsListed(c);
    }
  }

  lemma HexIsListed(c: char)
    ensures IsLowerHex(c) <==> c in HEX_DIGITS
  {
    if '0' <= c <= '9' {
      assert c == HEX_DIGITS[c as int - '0' as int];
    } else if 'a' <= c <= 'f' {
      assert c == HEX_DIGITS[c as int - 'a' as int + 10];
    }
  }

  /** A digest is `sha256:` and 64 lower-case hexadecimal digits. */
  lemma DigestExactlyWhen(s: string)
    ensures ValidDigest(s) <==> HexDigest(s)
  {
    forall i | 7 <= i < |s| ensures IsLowerHex(s[i]) <==> s[i] in HEX_DIGITS {
      HexIsListed(s[i]);
    }
    assert |s| >= 7 ==> ("sha256:" <= s <==> s[..7] == "sha256:");
  }

  const INSTANCE_MARKS := "._-/"

  /** An instance key has 1 to 160 ASCII letters, digits, dots, underscores, dashes and slashes. */
  lemma InstanceExactlyWhen(s: string)
    ensures ValidInstance(s) <==>
              && 1 <= |s| <= 160
              && forall c | c in s ::
                   || 0x61 <= c as int <= 0x7A || 0x41 <= c as int <= 0x5A || 0x30 <= c as int <= 0x39
                   || c in INSTANCE_MARKS
  {
    forall c | c in s
      ensures c in {'.', '_', '-', '/'} <==> c in INSTANCE_MARKS
      ensures 'a' <= c <= 'z' <==> 0x61 <= c as int <= 0x7A
      ensures 'A' <= c <= 'Z' <==> 0x41 <= c as int <= 0x5A
      ensures '0' <= c <= '9' <==> 0x30 <= c as int <= 0x39
    {
    }
  }

  // Returns

  const LONGEST_PAUSE: int := 86_400_000

  /** The name that each outcome goes by. */
  function OutcomeName(outcome: DispatchOutcome): string {
    match outcome
    case ProviderAccepted => "accepted"
    case TemporaryFailure => "temporary_failure"
    case PermanentFailure => "permanent_failure"
    case OutcomeUnknown => "delivery_unknown"
  }

  predicate WellFormedReceipt(receipt: RemoteReceipt, instance: string) {
    Says(receipt.remoteId, 320) && receipt.source == instance && HexDigest(receipt.digest)
  }

  predicate WellFormedFailure(failure: ResponseFailure, outcome: DispatchOutcome) {
    && Says(failure.code, 160)
    && failure.classification == OutcomeName(outcome)
    && (failure.retryAfter.Some? ==>
          outcome == TemporaryFailure && 0 <= failure.retryAfter.value <= LONGEST_PAUSE)
  }

  /** A response of the instance that was called, with a time: an acceptance has no failure and
      may have a receipt; everything else has its own failure and no receipt; only a temporary
      failure may ask for a pause, of at most a day. */
  predicate WellFormed(response: DispatchResponse, instance: string) {
    && response.provider == instance
    && response.observedAt.Some?
    && (response.failure.Some? <==> response.outcome != ProviderAccepted)
    && (response.failure.Some? ==> WellFormedFailure(response.failure.value, response.outcome))
    && (response.remoteReceipt.Some? ==>
          && response.outcome == ProviderAccepted
          && WellFormedReceipt(response.remoteReceipt.value, instance))
  }

  lemma OutcomeNamesSay(outcome: DispatchOutcome)
    ensures RequiredBounded(OutcomeName(outcome), 160)
  {
    CodesAreBounded(OutcomeName(outcome));
  }

  /** A response passes the worker's check exactly when it is well formed. */
  lemma ResponseExactlyWhen(response: DispatchResponse, instance: string)
    ensures ValidResponse(response, instance) <==> WellFormed(response, instance)
  {
    hide RequiredBounded, Says, ValidDigest, HexDigest;
    OutcomeNamesSay(response.outcome);
    if response.remoteReceipt.Some? {
      BoundedExactlyWhen(response.remoteReceipt.value.remoteId, 320);
      DigestExactlyWhen(response.remoteReceipt.value.digest);
    }
    if response.failure.Some? {
      BoundedExactlyWhen(response.failure.value.code, 160);
    }
  }

  /** The call returned a well-formed response with this outcome. */
  predicate Responds(result: ProviderResult, instance: string, outcome: DispatchOutcome) {
    && result.Responded?
    && result.response.outcome == outcome
    && WellFormed(result.response, instance)
  }

  /** The provider has taken the message. */
  predicate Accepts(result: ProviderResult, instance: string) {
    Responds(result, instance, ProviderAccepted)
  }

  /** The provider has not taken the message and may be asked again. */
  predicate AsksAgain(result: ProviderResult, instance: string) {
    Responds(result, instance, TemporaryFailure)
  }

  /** The provider has not taken the message and never will. */
  predicate Refuses(result: ProviderResult, instance: string) {
    || result.InvalidDispatch? || result.UnsupportedMessage?
    || Responds(result, instance, PermanentFailure)
  }

  /** Nobody can tell whether the provider has taken the message. */
  predicate Unclear(result: ProviderResult, instance: string) {
    || result.RuntimeFailure? || result.UnknownDomainError?
    || (result.Responded? && !WellFormed(result.response, instance))
    || Responds(result, instance, OutcomeUnknown)
  }

  /** When the provider says it answered, or else when the work was claimed. */
  function AnsweredAt(result: ProviderResult, instance: string, since: Time): Time {
    if result.Responded? && WellFormed(result.response, instance) then result.response.observedAt.value
    else since
  }

  /** The code of a failure: the provider's own, or the worker's name for what went wrong. */
  function CodeOf(result: ProviderResult, instance: string): Option<string> {
    match result
    case InvalidDispatch => Some("email_invalid_dispatch")
    case UnsupportedMessage => Some("email_unsupported_message")
    case UnknownDomainError => Some("email_dispatch_unknown_domain_error")
    case RuntimeFailure => Some("email_dispatch_runtime_failure")
    case Responded(response) =>
      if !WellFormed(response, instance) then Some("email_dispatch_protocol_failure")
      else if response.failure.Some? then Some(response.failure.value.code)
      else None
  }

  /** The pause that the provider asked for. */
  function PauseOf(result: ProviderResult, instance: string): Option<int> {
    if AsksAgain(result, instance) then result.response.failure.value.retryAfter else None
  }

  /** The wait after attempt `n`: one, five and thirty minutes, or the pause if that is longer. */
  function WaitAfter(n: int, pause: Option<int>): Time {
    var policy := if n == 1 then 60_000 else if n == 2 then 300_000 else 1_800_000;
    if pause.Some? && policy < pause.value then pause.value else policy
  }

  function ReceiptIn(result: ProviderResult, instance: string): Option<RemoteReceipt> {
    if Accepts(result, instance) then result.response.remoteReceipt else None
  }

  /** Every return falls under exactly one of the four. */
  lemma ReturnsAreToldApart(result: ProviderResult, instance: string)
    ensures Accepts(result, instance) || AsksAgain(result, instance) || Refuses(result, instance)
            || Unclear(result, instance)
    ensures Accepts(result, instance) ==> !AsksAgain(result, instance)
    ensures Accepts(result, instance) || AsksAgain(result, instance) ==> !Refuses(result, instance)
    ensures Accepts(result, instance) || AsksAgain(result, instance) || Refuses(result, instance) ==>
              !Unclear(result, instance)
  {
  }

  /** What the worker records of a call, whichever way it returned: an outcome that does not say
      more than the return does, and the provider's own words where they are well formed. */
  lemma ReturnIsRecorded(request: DispatchRequest, instance: string, since: Time, result: ProviderResult)
    ensures var p := Observe(request, instance, since, result);
            && (p.delivery, p.attempt, p.run) == (request.delivery, request.attempt, request.run)
            && p.provider == instance
            && p.observedAt == AnsweredAt(result, instance, since)
            && (p.outcome == ProviderAccepted <==> Accepts(result, instance))
            && (p.outcome == TemporaryFailure <==> AsksAgain(result, instance))
            && (p.outcome == PermanentFailure <==> Refuses(result, instance))
            && (p.outcome == OutcomeUnknown <==> Unclear(result, instance))
            && p.remoteReceipt == ReceiptIn(result, instance)
            && (p.failure.Some? <==> CodeOf(result, instance).Some?)
            && (p.failure.Some? ==>
                  && Some(p.failure.value.code) == CodeOf(result, instance)
                  && p.failure.value.classification == OutcomeName(p.outcome)
                  && p.failure.value.retryAfter == PauseOf(result, instance))
  {
    hide RequiredBounded, Says, ValidDigest, HexDigest;
    if result.Responded? {
      ResponseExactlyWhen(result.response, instance);
    }
  }
}
