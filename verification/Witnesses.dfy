/** Ledgers that show what the program does not promise. Both come about from an empty ledger by
    creates and claims alone. */
module Witnesses {
  import opened Wrappers
  import opened Records
  import opened Validation
  import opened Transactions
  import opened Invariant
  import opened Preservation
  import opened Commutation
  import opened Creates

  function Request(key: string): IntentRequest {
    IntentRequest(IntentKey("organization", key), "organization_invitation", "invitation",
                  "a@b", "en", "organization-invitation", None, "correlation", "")
  }

  function Digits(): string {
    "sha256:" + seq(64, _ => '0')
  }

  function Rendering(): Rendered {
    Rendered(ReleaseKey("organization-invitation", "v1", "en"), "en", false, "r", Digits(),
             ContentDigest("s", "t", "h"), "s", "t", "h")
  }

  lemma LettersAreBounded(text: string, limit: nat)
    requires text != "" && 'a' <= text[0] <= 'z' && |text| <= limit
    ensures RequiredBounded(text, limit)
  {
    assert text[0] in text;
  }

  lemma DigitsAreValid()
    ensures ValidDigest(Digits())
  {
    var digits := Digits();
    assert forall i | 7 <= i < |digits| :: digits[i] == '0';
  }

  lemma RenderingIsValid(key: string)
    ensures ValidRendered(Request(key), Rendering())
  {
    hide RequiredBounded, ValidDigest, Digits;
    LettersAreBounded("en", 32);
    LettersAreBounded("r", 160);
    LettersAreBounded("s", 998);
    LettersAreBounded("t", 131_072);
    LettersAreBounded("h", 262_144);
    DigitsAreValid();
  }

  lemma AddressIsShort()
    ensures MaskFits("a@b")
  {
    var address := "a@b";
    assert address[1] == '@';
    assert "a@b"[2..] == "b";
    MaskFitsExactlyWhen(address, "b");
  }

  function DeliveryOf(hash: IntentId -> DeliveryId, key: string): DeliveryId {
    hash(IntentId(Request(key).key, RequestDigest(Request(key))))
  }

  /** One create, under the key reference in force at the time. */
  function WithIntent(
    hash: IntentId -> DeliveryId, s: Tables, key: string, keyReference: string, now: Time): Tables
  {
    CommitCreate(s, DeliveryOf(hash, key), Request(key), Rendering(), keyReference, now)
  }

  lemma WithIntentIsReached(
    hash: IntentId -> DeliveryId, s: Tables, key: string, keyReference: string, now: Time)
    requires Inv(hash, s) && Request(key).key !in s.intents
    requires RequestDigest(Request(key)) !in s.snapshots && DeliveryOf(hash, key) !in s.deliveries
    requires Rendering().release in s.releases ==>
               s.releases[Rendering().release].templateDigest == Digits()
    ensures CreateIntent(s, hash, Request(key), Rendering(), keyReference, now) ==
            Success((WithIntent(hash, s, key, keyReference, now),
                     IntentReceipt(DeliveryOf(hash, key), Queued, false)))
    ensures Inv(hash, WithIntent(hash, s, key, keyReference, now))
  {
    hide Inv, ValidRendered, CommitCreate, MaskFits;
    RenderingIsValid(key);
    AddressIsShort();
    CreateKeepsInv(hash, s, Request(key), Rendering(), keyReference, now,
                   WithIntent(hash, s, key, keyReference, now),
                   IntentReceipt(DeliveryOf(hash, key), Queued, false));
  }

  // A create can abort, and a replay be refused

  /** An address of 320 characters, the most that requests may have. */
  function LongAddress(): string {
    "a@" + seq(318, _ => 'b')
  }

  lemma AddressIsNotRendered(request: IntentRequest, address: string)
    ensures ValidRendered(request.(address := address), Rendering()) == ValidRendered(request, Rendering())
  {
    hide RequiredBounded, ValidDigest, Digits;
  }

  /** The mask of the long address has 323 characters, so its create aborts although the key is
      free, the release unchanged and every identity new. */
  lemma LongAddressAborts(hash: IntentId -> DeliveryId, now: Time)
    ensures |LongAddress()| == 320 && '@' in LongAddress() && |MaskEmail(LongAddress())| == 323
    ensures CreateIntent(EMPTY, hash, Request("first").(address := LongAddress()), Rendering(), "old", now)
            == Failure(Internal)
  {
    hide ValidRendered;
    var address, domain := LongAddress(), seq(318, _ => 'b');
    RenderingIsValid("first");
    assert address[1] == '@' && address[2..] == domain;
    assert forall k | 2 <= k < |address| :: address[k] == 'b';
    assert LastAt(address) == Some(1);
    assert ValidRendered(Request("first").(address := address), Rendering()) by {
      AddressIsNotRendered(Request("first"), address);
    }
  }

  lemma ExpiryIsNotRendered(request: IntentRequest, at: Time)
    ensures ValidRendered(request.(expiresAt := Some(at)), Rendering()) == ValidRendered(request, Rendering())
  {
    hide RequiredBounded, ValidDigest, Digits;
  }

  /** A request whose intent was committed at 1 is replayed at 4 and refused at 6, after it has
      expired. */
  lemma ExpiredReplayIsRefused(hash: IntentId -> DeliveryId)
    ensures var request, rendered := Request("first").(expiresAt := Some(5)), Rendering();
            var id := hash(IntentId(request.key, RequestDigest(request)));
            var s := CommitCreate(EMPTY, id, request, rendered, "old", 1);
            && CreateIntent(EMPTY, hash, request, rendered, "old", 1) ==
               Success((s, IntentReceipt(id, Queued, false)))
            && CreateIntent(s, hash, request, rendered, "old", 4) ==
               Success((s, IntentReceipt(id, Queued, true)))
            && CreateIntent(s, hash, request, rendered, "old", 6) == Failure(Validation)
  {
    hide ValidRendered, MaskFits, Digits;
    RenderingIsValid("first");
    AddressIsShort();
    ExpiryIsNotRendered(Request("first"), 5);
  }

  // A delivery that cannot be claimed stops the ones behind it

  /** Two creates, the first before the sealing key was changed from "old" to "new". */
  function KeyChanged(hash: IntentId -> DeliveryId): Tables {
    WithIntent(hash, WithIntent(hash, EMPTY, "first", "old", 1), "second", "new", 2)
  }

  lemma KeyChangedIsReached(hash: IntentId -> DeliveryId)
    requires DeliveryOf(hash, "first") != DeliveryOf(hash, "second")
    ensures var s := WithIntent(hash, EMPTY, "first", "old", 1);
            var first, second := DeliveryOf(hash, "first"), DeliveryOf(hash, "second");
            && CreateIntent(EMPTY, hash, Request("first"), Rendering(), "old", 1) ==
               Success((s, IntentReceipt(first, Queued, false)))
            && CreateIntent(s, hash, Request("second"), Rendering(), "new", 2) ==
               Success((KeyChanged(hash), IntentReceipt(second, Queued, false)))
    ensures Inv(hash, KeyChanged(hash))
  {
    hide Inv, Digits, CreateIntent;
    assert "first"[0] != "second"[0];
    EmptyLedger(hash);
    WithIntentIsReached(hash, EMPTY, "first", "old", 1);
    WithIntentIsReached(hash, WithIntent(hash, EMPTY, "first", "old", 1), "second", "new", 2);
  }

  lemma BothAreDue(hash: IntentId -> DeliveryId)
    requires DeliveryOf(hash, "first") != DeliveryOf(hash, "second")
    ensures var s, first, second := KeyChanged(hash), DeliveryOf(hash, "first"), DeliveryOf(hash, "second");
            && (forall id :: Due(s, id, 3, {}) <==> id in {first, second})
            && s.deliveries[first].nextAttemptAt == Some(1) && s.deliveries[second].nextAttemptAt == Some(2)
            && ClaimRow(s, "new", first, 3) == Failure(Validation)
            && ClaimRow(s, "new", second, 3).Success?
  {
    hide Digits;
    assert "first"[0] != "second"[0] && "old"[0] != "new"[0];
  }

  /** With both deliveries due, the claim under the new key fails, although the second delivery
      could be claimed. */
  lemma FirstBlocksSecond(hash: IntentId -> DeliveryId)
    requires DeliveryOf(hash, "first") != DeliveryOf(hash, "second")
    ensures Due(KeyChanged(hash), DeliveryOf(hash, "first"), 3, {})
    ensures Due(KeyChanged(hash), DeliveryOf(hash, "second"), 3, {})
    ensures ClaimsDue(KeyChanged(hash), "new", 3, {}, Failure(Validation))
    ensures ClaimRow(KeyChanged(hash), "new", DeliveryOf(hash, "second"), 3).Success?
  {
    var s, first, second := KeyChanged(hash), DeliveryOf(hash, "first"), DeliveryOf(hash, "second");
    BothAreDue(hash);
    hide KeyChanged, Due;
    assert ClaimedBefore(s, first, first) && ClaimedBefore(s, first, second);
    assert FirstDue(s, first, 3, {});
    assert ClaimAnswer(s, "new", first, 3) == Failure(Validation);
  }

  // A bounce and a permanent failure do not commute

  /** A delivery whose first attempt is in flight. */
  function Sent(hash: IntentId -> DeliveryId): Tables {
    CommitClaim(WithIntent(hash, EMPTY, "first", "old", 1), DeliveryOf(hash, "first"), 2)
  }

  lemma SentIsReached(hash: IntentId -> DeliveryId)
    ensures var s, id := WithIntent(hash, EMPTY, "first", "old", 1), DeliveryOf(hash, "first");
            && CreateIntent(EMPTY, hash, Request("first"), Rendering(), "old", 1) ==
               Success((s, IntentReceipt(id, Queued, false)))
            && Due(s, id, 2, {})
            && ClaimRow(s, "old", id, 2).Success? && ClaimRow(s, "old", id, 2).value.0 == Sent(hash)
    ensures Inv(hash, Sent(hash))
  {
    hide Inv, Digits, CreateIntent;
    EmptyLedger(hash);
    WithIntentIsReached(hash, EMPTY, "first", "old", 1);
    var s, id := WithIntent(hash, EMPTY, "first", "old", 1), DeliveryOf(hash, "first");
    ClaimKeepsInv(hash, s, "old", id, 2, {}, Sent(hash), ClaimRow(s, "old", id, 2).value.1);
  }

  function Failing(hash: IntentId -> DeliveryId): DispatchObserved {
    var attempt := AttemptId(DeliveryOf(hash, "first"), 1);
    DispatchObserved(attempt.delivery, attempt, RunId(attempt), PermanentFailure, "mail", 3, None,
                     Some(SanitizedFailure("refused", "permanent_failure", None)))
  }

  function Bouncing(hash: IntentId -> DeliveryId): ReceiptObserved {
    var attempt := AttemptId(DeliveryOf(hash, "first"), 1);
    ReceiptObserved(attempt.delivery, attempt, RunId(attempt), Bounced, "mail", 4, "remote", Digits())
  }

  function FailureReport(hash: IntentId -> DeliveryId): Envelope {
    var p := Failing(hash);
    Envelope(DispatchObservation(p.attempt), 1, "mail", 3, Dispatch(p))
  }

  function BounceReport(hash: IntentId -> DeliveryId): Envelope {
    Envelope(CallerText("bounce"), 1, "mail", 4, Authoritative(Bouncing(hash)))
  }

  lemma ReportsRace(hash: IntentId -> DeliveryId)
    ensures var s, e, p := Sent(hash), FailureReport(hash), Failing(hash);
            var f, r := BounceReport(hash), Bouncing(hash);
            Racing(s, e, p, f, r) && Admissible(s, e, p, f, r)
  {
    hide RequiredBounded, ValidDigest, Digits;
    LettersAreBounded("mail", 160);
    LettersAreBounded("refused", 160);
    LettersAreBounded("permanent_failure", 160);
    DigitsAreValid();
  }

  /** The two reports race for an attempt in flight, and only the bounce may come first. */
  lemma FailureMayFollowBounceOnly(hash: IntentId -> DeliveryId)
    ensures Racing(Sent(hash), FailureReport(hash), Failing(hash), BounceReport(hash), Bouncing(hash))
    ensures ApplyBoth(Sent(hash), BounceReport(hash), FailureReport(hash)).Success?
    ensures ApplyBoth(Sent(hash), FailureReport(hash), BounceReport(hash)).Failure?
  {
    SentIsReached(hash);
    ReportsRace(hash);
    hide Inv, Racing, ApplyBoth, EvidenceClashes, Digits, AgreeButForOrder;
    AcceptanceAndDeliveryCommute(hash, Sent(hash), FailureReport(hash), Failing(hash),
                                 BounceReport(hash), Bouncing(hash));
  }
}
