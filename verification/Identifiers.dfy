/** The texts that stable identities are hashed from. Each joins its parts with colons; under the
    rules that callers, template names and digests obey, the text determines the parts, which is
    why the ledger can name its rows by constructors over them. */
module Identifiers {
  import opened Records

  predicate Plain(part: string) {
    ':' !in part
  }

  function WithColon(first: string, second: string): string {
    first + ":" + second
  }

  /** A joined text can be taken apart at its first colon. */
  lemma FirstColonSplits(a: string, b: string, a': string, b': string)
    requires Plain(a) && Plain(a') && WithColon(a, b) == WithColon(a', b')
    ensures a == a' && b == b'
  {
    var text := WithColon(a, b);
    assert text[|a|] == ':' && text[|a'|] == ':';
    assert forall k | 0 <= k < |a| :: text[k] == a[k];
    assert forall k | 0 <= k < |a'| :: text[k] == a'[k];
    assert a == text[..|a|] && a' == text[..|a'|];
    assert b == text[|a| + 1..] && b' == text[|a'| + 1..];
  }

  /** A joined text can be taken apart at its last colon. */
  lemma LastColonSplits(a: string, b: string, a': string, b': string)
    requires Plain(b) && Plain(b') && WithColon(a, b) == WithColon(a', b')
    ensures a == a' && b == b'
  {
    var text := WithColon(a, b);
    assert text[|a|] == ':' && text[|a'|] == ':';
    assert forall k | |a| < k < |text| :: text[k] == b[k - |a| - 1];
    assert forall k | |a'| < k < |text| :: text[k] == b'[k - |a'| - 1];
    assert a == text[..|a|] && a' == text[..|a'|];
    assert b == text[|a| + 1..] && b' == text[|a'| + 1..];
  }

  // Numbers

  function Digit(n: nat): char
    requires n < 10
  {
    "0123456789"[n]
  }

  function Decimal(n: nat): (text: string)
    ensures text != [] && Plain(text)
  {
    if n < 10 then [Digit(n)] else Decimal(n / 10) + [Digit(n % 10)]
  }

  lemma DigitDetermines(m: nat, n: nat)
    requires m < 10 && n < 10 && Digit(m) == Digit(n)
    ensures m == n
  {
  }

  lemma {:induction false} DecimalDetermines(m: nat, n: nat)
    requires Decimal(m) == Decimal(n)
    ensures m == n
  {
    var text := Decimal(m);
    var last := text[|text| - 1];
    assert last == Digit(m % 10) == Digit(n % 10);
    DigitDetermines(m % 10, n % 10);
    if m >= 10 && n >= 10 {
      assert Decimal(m / 10) == text[..|text| - 1] == Decimal(n / 10);
      DecimalDetermines(m / 10, n / 10);
    } else {
      assert m < 10 <==> |text| == 1;
      assert n < 10 <==> |text| == 1;
    }
  }

  /** The number that a decimal text stands for. */
  function Reads(text: string): int {
    if text == "" then 0
    else 10 * Reads(text[..|text| - 1]) + (text[|text| - 1] as int - '0' as int)
  }

  lemma DigitReads(n: nat)
    requires n < 10
    ensures Digit(n) as int - '0' as int == n
  {
  }

  /** A number's text reads as the number. */
  lemma {:induction false} DecimalReads(n: nat)
    ensures Reads(Decimal(n)) == n
  {
    DigitReads(n % 10);
    var text := Decimal(n);
    if n < 10 {
      assert text[..|text| - 1] == "";
    } else {
      DecimalReads(n / 10);
      assert text[..|text| - 1] == Decimal(n / 10);
    }
  }

  // The texts

  function AttemptText(delivery: string, sequence: nat): string {
    WithColon(delivery, Decimal(sequence))
  }

  function DigestText(hex: string): string {
    WithColon("sha256", hex)
  }

  function IntentText(caller: string, idempotencyKey: string, hex: string): string {
    WithColon(WithColon(caller, idempotencyKey), DigestText(hex))
  }

  function TemplateText(template: string, version: string, locale: string): string {
    WithColon(WithColon(template, version), locale)
  }

  function KindText(kind: ReceiptKind): string {
    match kind
    case AcceptedReceipt => "accepted"
    case FinalReceipt(ReachedRecipient) => "delivered"
    case FinalReceipt(Bounced) => "bounced"
    case FinalReceipt(Refused) => "rejected"
  }

  function ReceiptText(key: ReceiptKey): string {
    WithColon(WithColon(key.source, key.remoteId), KindText(key.kind))
  }

  function ObservationText(attempt: string): string {
    WithColon("dispatch-observation", attempt)
  }

  function ManualRetryText(delivery: string, key: string): string {
    WithColon(WithColon("manual", delivery), key)
  }

  /** A kind's prefix and a truncated hexadecimal hash. */
  function StableId(prefix: string, hex: string): string {
    prefix + "_" + hex
  }

  lemma JoinAssociates(a: string, b: string, c: string)
    ensures WithColon(WithColon(a, b), c) == WithColon(a, WithColon(b, c))
  {
  }

  /** How each text is spelled, part by part. */
  lemma TextsAreSpelled(
    caller: string, key: string, hex: string, template: string, version: string, locale: string,
    delivery: string, sequence: nat, receipt: ReceiptKey, attempt: string, prefix: string)
    ensures IntentText(caller, key, hex) == caller + ":" + key + ":sha256:" + hex
    ensures TemplateText(template, version, locale) == template + ":" + version + ":" + locale
    ensures AttemptText(delivery, sequence) == delivery + ":" + Decimal(sequence)
    ensures ReceiptText(receipt) ==
            receipt.source + ":" + receipt.remoteId + ":"
            + (if receipt.kind == AcceptedReceipt then "accepted"
               else if receipt.kind == FinalReceipt(ReachedRecipient) then "delivered"
               else if receipt.kind == FinalReceipt(Bounced) then "bounced"
               else "rejected")
    ensures ObservationText(attempt) == "dispatch-observation:" + attempt
    ensures ManualRetryText(delivery, key) == "manual:" + delivery + ":" + key
    ensures StableId(prefix, hex) == prefix + "_" + hex
  {
    hide Decimal;
    JoinAssociates(WithColon(caller, key), "sha256", hex);
    assert ":" + "sha256" + ":" == ":sha256:";
    assert IntentText(caller, key, hex) == caller + ":" + key + (":" + "sha256" + ":") + hex;
    assert "dispatch-observation" + ":" == "dispatch-observation:";
    assert "manual" + ":" == "manual:";
  }

  // Each text determines its parts

  lemma AttemptTextDetermines(d: string, m: nat, d': string, n: nat)
    requires AttemptText(d, m) == AttemptText(d', n)
    ensures d == d' && m == n
  {
    LastColonSplits(d, Decimal(m), d', Decimal(n));
    DecimalDetermines(m, n);
  }

  /** Whatever the idempotency keys contain, callers without colons never share an intent text. */
  lemma IntentTextDetermines(
    caller: string, key: string, hex: string, caller': string, key': string, hex': string)
    requires Plain(caller) && Plain(caller') && Plain(hex) && Plain(hex')
    requires IntentText(caller, key, hex) == IntentText(caller', key', hex')
    ensures caller == caller' && key == key' && hex == hex'
  {
    var front, front' := WithColon(WithColon(caller, key), "sha256"), WithColon(WithColon(caller', key'), "sha256");
    JoinAssociates(WithColon(caller, key), "sha256", hex);
    JoinAssociates(WithColon(caller', key'), "sha256", hex');
    LastColonSplits(front, hex, front', hex');
    LastColonSplits(WithColon(caller, key), "sha256", WithColon(caller', key'), "sha256");
    FirstColonSplits(caller, key, caller', key');
  }

  /** The rule about callers is needed: a colon in one would let two callers share a text. */
  lemma ColonInCallerCollides(hex: string)
    ensures IntentText("a:b", "c", hex) == IntentText("a", "b:c", hex)
  {
    assert WithColon("a:b", "c") == "a:b:c" == WithColon("a", "b:c");
  }

  lemma TemplateTextDetermines(
    template: string, version: string, locale: string,
    template': string, version': string, locale': string)
    requires Plain(template) && Plain(template') && Plain(version) && Plain(version')
    requires TemplateText(template, version, locale) == TemplateText(template', version', locale')
    ensures template == template' && version == version' && locale == locale'
  {
    JoinAssociates(template, version, locale);
    JoinAssociates(template', version', locale');
    FirstColonSplits(template, WithColon(version, locale), template', WithColon(version', locale'));
    FirstColonSplits(version, locale, version', locale');
  }

  lemma KindTextDetermines(kind: ReceiptKind, kind': ReceiptKind)
    requires KindText(kind) == KindText(kind')
    ensures kind == kind'
  {
    assert |KindText(kind)| == |KindText(kind')| && KindText(kind)[0] == KindText(kind')[0];
  }

  /** Remote identities may contain anything; sources are instance keys, which have no colon. */
  lemma ReceiptTextDetermines(key: ReceiptKey, key': ReceiptKey)
    requires Plain(key.source) && Plain(key'.source) && ReceiptText(key) == ReceiptText(key')
    ensures key == key'
  {
    LastColonSplits(WithColon(key.source, key.remoteId), KindText(key.kind),
                    WithColon(key'.source, key'.remoteId), KindText(key'.kind));
    KindTextDetermines(key.kind, key'.kind);
    FirstColonSplits(key.source, key.remoteId, key'.source, key'.remoteId);
  }

  /** Manual retries of one delivery are told apart by their keys, and none of them is named
      like the decision that follows a worker's observation. */
  lemma ManualRetryTextDetermines(d: string, key: string, d': string, key': string, attempt: string)
    requires Plain(d) && Plain(d')
    ensures ManualRetryText(d, key) == ManualRetryText(d', key') ==> d == d' && key == key'
    ensures ManualRetryText(d, key) != ObservationText(attempt)
  {
    JoinAssociates("manual", d, key);
    JoinAssociates("manual", d', key');
    if ManualRetryText(d, key) == ManualRetryText(d', key') {
      FirstColonSplits("manual", WithColon(d, key), "manual", WithColon(d', key'));
      FirstColonSplits(d, key, d', key');
    }
    assert ManualRetryText(d, key)[0] == 'm' && ObservationText(attempt)[0] == 'd';
  }

  /** Identities of different kinds never meet, even for equal hashes. */
  lemma StableIdDetermines(prefix: string, hex: string, prefix': string, hex': string)
    requires |hex| == |hex'| && StableId(prefix, hex) == StableId(prefix', hex')
    ensures prefix == prefix' && hex == hex'
  {
    var id := StableId(prefix, hex);
    assert hex == id[|id| - |hex|..] && hex' == id[|id| - |hex|..];
    assert prefix == id[..|id| - |hex| - 1] && prefix' == id[..|id| - |hex| - 1];
  }
}
