/** A provider's answer and an authoritative receipt for the same attempt may reach the ledger
    in either order. When both orders commit they agree on everything but bookkeeping. */
module Commutation {
  import opened Wrappers
  import opened Records
  import opened Validation
  import opened Transactions
  import opened Invariant
  import opened Preservation
  import opened Evolution
  import opened Refusals
  import opened Observations

  /** A dispatch observation and a receipt for the same attempt in flight, both well formed and
      neither seen before. */
  ghost predicate Racing(
    s: Tables, e: Envelope, p: DispatchObserved, f: Envelope, r: ReceiptObserved)
  {
    && ValidContract(e) && e.payload == Dispatch(p) && e.source == p.provider
    && ValidDispatchObservation(p)
    && ValidContract(f) && f.payload == Authoritative(r) && f.source == r.source && ValidReceipt(r)
    && Open(s, p.delivery, p.attempt)
    && r.delivery == p.delivery && r.attempt == p.attempt
    && e.id !in s.events && f.id !in s.events
    && ReceiptKeyOf(r) !in s.receipts
  }

  /** They name the attempt's run, have their own identities, and find a revision left. */
  predicate Admissible(
    s: Tables, e: Envelope, p: DispatchObserved, f: Envelope, r: ReceiptObserved)
    requires Open(s, p.delivery, p.attempt)
  {
    && e.id != f.id
    && s.attempts[p.attempt].run == p.run == r.run
    && s.deliveries[p.delivery].revision < MAX_SAFE_WIRE_INTEGER
  }

  /** The provider's answer tells the same story as the receipt. */
  predicate Agrees(outcome: DispatchOutcome, verdict: Verdict) {
    if verdict == ReachedRecipient then outcome == ProviderAccepted else outcome == PermanentFailure
  }

  function ApplyBoth(s: Tables, e: Envelope, f: Envelope): Result<Tables> {
    var s' :- Apply(s, e);
    Apply(s', f)
  }

  /** All that the two orders may disagree on: with the acceptance first the delivery counts one
      revision more, is accepted and its attempt completed when the acceptance was observed, and
      the acceptance has its own receipt. */
  ghost predicate AgreeButForOrder(first: Tables, second: Tables, p: DispatchObserved) {
    && p.delivery in second.deliveries && p.attempt in second.attempts
    && var d, a := second.deliveries[p.delivery], second.attempts[p.attempt];
       first == second.(
         deliveries := second.deliveries[
           p.delivery := d.(revision := d.revision + 1, acceptedAt := Some(p.observedAt))],
         attempts := second.attempts[p.attempt := a.(completedAt := Some(p.observedAt))],
         receipts := match p.remoteReceipt
           case None => second.receipts
           case Some(remote) => second.receipts[
             ReceiptKey(remote.source, remote.remoteId, AcceptedReceipt) :=
               Receipt(p.delivery, p.attempt, remote.digest, p.observedAt, p.observedAt)])
  }

  function Consume(s: Tables, e: Envelope, at: Time): Tables {
    s.(events := s.events[e.id := ConsumedEvent(Digest(e), at)])
  }

  // Each on its own

  lemma AnswerAlone(s: Tables, e: Envelope, p: DispatchObserved)
    requires ValidContract(e) && e.payload == Dispatch(p) && e.source == p.provider
    requires ValidDispatchObservation(p) && e.id !in s.events && Open(s, p.delivery, p.attempt)
    ensures Apply(s, e).Success? <==>
              && s.attempts[p.attempt].run == p.run
              && s.deliveries[p.delivery].revision < MAX_SAFE_WIRE_INTEGER
              && !EvidenceTaken(s, e, p)
    ensures Apply(s, e).Success? ==>
              Apply(s, e).value == CommitOutcome(Consume(s, e, p.observedAt), e, p)
  {
    hide ValidContract, ValidDispatchObservation, CommitOutcome, HasReceipt;
  }

  lemma ReceiptAlone(s: Tables, f: Envelope, r: ReceiptObserved)
    requires ValidContract(f) && f.payload == Authoritative(r) && f.source == r.source && ValidReceipt(r)
    requires f.id !in s.events && ReceiptKeyOf(r) !in s.receipts && Matched(s, r.delivery, r.attempt)
    ensures Apply(s, f).Success? <==>
              && s.attempts[r.attempt].run == r.run
              && s.deliveries[r.delivery].status in {Attempting, Accepted}
              && s.deliveries[r.delivery].revision < MAX_SAFE_WIRE_INTEGER
    ensures Apply(s, f).Success? ==>
              Apply(s, f).value == CommitVerdict(Consume(s, f, r.observedAt), f, r)
  {
    hide ValidContract, ValidReceipt, CommitVerdict;
  }

  lemma LateAnswerAlone(s: Tables, e: Envelope, p: DispatchObserved)
    requires ValidContract(e) && e.payload == Dispatch(p) && e.source == p.provider
    requires ValidDispatchObservation(p) && e.id !in s.events && Matched(s, p.delivery, p.attempt)
    requires s.deliveries[p.delivery].status != Attempting
    ensures Apply(s, e).Success? <==> s.attempts[p.attempt].run == p.run && Late(s, p)
    ensures Apply(s, e).Success? ==>
              Apply(s, e).value == Consume(s, e, p.observedAt).(
                attempts := s.attempts[p.attempt := Absorbed(s.attempts[p.attempt], p)])
  {
    hide ValidContract, ValidDispatchObservation, CommitOutcome, EvidenceClashes, Absorbed;
    assert HasReceipt(Consume(s, e, p.observedAt), p.attempt) == HasReceipt(s, p.attempt);
  }

  lemma Altered(s: Tables, e: Envelope, f: Envelope)
    requires Consumed(s, e) && e.id == f.id && e.payload != f.payload
    ensures Apply(s, f).Failure?
  {
    hide CommitOutcome, CommitVerdict, Cancelled, EvidenceClashes, Absorbed, ValidDispatchObservation;
    hide ValidReceipt, ValidContract, HasReceipt, Matched;
  }

  lemma IdentityTaken(s: Tables, e: Envelope, f: Envelope)
    requires e.id == f.id && e.payload != f.payload && Apply(s, e).Success?
    ensures Apply(Apply(s, e).value, f).Failure?
  {
    hide ApplyDispatch, ApplyReceipt, ApplyLifecycle;
    CommittedIsConsumed(s, e, Apply(s, e).value);
    Altered(Apply(s, e).value, e, f);
  }

  // The answer first

  lemma AnswerWrites(s: Tables, e: Envelope, p: DispatchObserved)
    requires Open(s, p.delivery, p.attempt)
    ensures var s' := CommitOutcome(s, e, p);
            && s'.events == s.events
            && (forall k | k in s'.receipts :: k in s.receipts || k.kind.AcceptedReceipt?)
            && Matched(s', p.delivery, p.attempt)
            && s'.attempts[p.attempt].run == s.attempts[p.attempt].run
            && s'.deliveries[p.delivery].revision == s.deliveries[p.delivery].revision + 1
            && (s'.deliveries[p.delivery].status in {Attempting, Accepted} <==>
                  p.outcome == ProviderAccepted)
  {
    hide AutomaticDecision, RetrySchedule;
  }

  /** The acceptance is recorded in full, and the receipt then concludes the delivery. */
  function AnsweredThenConcluded(
    s: Tables, e: Envelope, p: DispatchObserved, f: Envelope, r: ReceiptObserved): Tables
    requires Open(s, p.delivery, p.attempt)
  {
    var d, a := s.deliveries[p.delivery], s.attempts[p.attempt];
    var receipts := if AddsReceipt(p) then s.receipts[AcceptanceKey(p) := AcceptanceReceipt(p)]
                    else s.receipts;
    s.(events := s.events[e.id := ConsumedEvent(Digest(e), p.observedAt)][
                          f.id := ConsumedEvent(Digest(f), r.observedAt)],
       attempts := s.attempts[p.attempt := Confirmed(Observed(a, Taken, p), r)],
       deliveries := s.deliveries[p.delivery := Concluded(AcceptedRow(d, p.observedAt), r)],
       receipts := receipts[ReceiptKeyOf(r) := VerdictReceipt(f, r)])
  }

  lemma ConcludeAnswered(s: Tables, e: Envelope, p: DispatchObserved, f: Envelope, r: ReceiptObserved)
    requires Open(s, p.delivery, p.attempt) && p.outcome == ProviderAccepted
    requires r.delivery == p.delivery && r.attempt == p.attempt
    ensures var s' := CommitOutcome(Consume(s, e, p.observedAt), e, p);
            && Matched(s', r.delivery, r.attempt)
            && CommitVerdict(Consume(s', f, r.observedAt), f, r) == AnsweredThenConcluded(s, e, p, f, r)
  {
    hide Concluded, Confirmed, VerdictReceipt, AcceptanceReceipt, AcceptanceKey, AcceptedRow;
    var s' := CommitOutcome(Consume(s, e, p.observedAt), e, p);
    var end := AnsweredThenConcluded(s, e, p, f, r);
    assert s'.deliveries[p.delivery := end.deliveries[p.delivery]] == end.deliveries;
    assert s'.attempts[p.attempt := end.attempts[p.attempt]] == end.attempts;
  }

  lemma AnswerFirst(s: Tables, e: Envelope, p: DispatchObserved, f: Envelope, r: ReceiptObserved)
    requires Racing(s, e, p, f, r)
    ensures ApplyBoth(s, e, f).Success? <==>
              && Admissible(s, e, p, f, r)
              && p.outcome == ProviderAccepted
              && !EvidenceTaken(s, e, p)
              && s.deliveries[p.delivery].revision + 1 < MAX_SAFE_WIRE_INTEGER
    ensures ApplyBoth(s, e, f).Success? ==>
              ApplyBoth(s, e, f).value == AnsweredThenConcluded(s, e, p, f, r)
  {
    hide ValidContract, ValidDispatchObservation, ValidReceipt, Concluded, Confirmed, VerdictReceipt;
    hide Apply, CommitOutcome, CommitVerdict, EvidenceClashes;
    AnswerAlone(s, e, p);
    if Apply(s, e).Success? {
      var s' := Apply(s, e).value;
      AnswerWrites(Consume(s, e, p.observedAt), e, p);
      if e.id == f.id {
        IdentityTaken(s, e, f);
      } else {
        ReceiptAlone(s', f, r);
        if Apply(s', f).Success? {
          ConcludeAnswered(s, e, p, f, r);
        }
      }
    }
  }

  // The receipt first

  lemma ReceiptWrites(s: Tables, f: Envelope, p: DispatchObserved, r: ReceiptObserved)
    requires Open(s, p.delivery, p.attempt) && r.delivery == p.delivery && r.attempt == p.attempt
    ensures var s' := CommitVerdict(s, f, r);
            && s'.events == s.events
            && Matched(s', p.delivery, p.attempt)
            && s'.attempts[p.attempt].run == s.attempts[p.attempt].run
            && s'.deliveries[p.delivery].status == StatusAfter(r.verdict)
            && HasReceipt(s', p.attempt)
  {
    var s' := CommitVerdict(s, f, r);
    assert s'.receipts[ReceiptKeyOf(r)].attempt == p.attempt;
  }

  /** The receipt concludes the delivery, and the answer only fills in the attempt. */
  function ConcludedThenAbsorbed(
    s: Tables, e: Envelope, p: DispatchObserved, f: Envelope, r: ReceiptObserved): Tables
    requires Open(s, p.delivery, p.attempt)
  {
    var d, a := s.deliveries[p.delivery], s.attempts[p.attempt];
    s.(events := s.events[f.id := ConsumedEvent(Digest(f), r.observedAt)][
                          e.id := ConsumedEvent(Digest(e), p.observedAt)],
       attempts := s.attempts[p.attempt := Absorbed(Confirmed(a, r), p)],
       deliveries := s.deliveries[p.delivery := Concluded(d, r)],
       receipts := s.receipts[ReceiptKeyOf(r) := VerdictReceipt(f, r)])
  }

  lemma AbsorbConcluded(s: Tables, e: Envelope, p: DispatchObserved, f: Envelope, r: ReceiptObserved)
    requires Open(s, p.delivery, p.attempt) && r.delivery == p.delivery && r.attempt == p.attempt
    ensures var s' := CommitVerdict(Consume(s, f, r.observedAt), f, r);
            && Matched(s', p.delivery, p.attempt)
            && Consume(s', e, p.observedAt).(
                 attempts := s'.attempts[p.attempt := Absorbed(s'.attempts[p.attempt], p)])
               == ConcludedThenAbsorbed(s, e, p, f, r)
  {
    hide Concluded, VerdictReceipt, Absorbed;
    var s' := CommitVerdict(Consume(s, f, r.observedAt), f, r);
    var end := ConcludedThenAbsorbed(s, e, p, f, r);
    assert s'.attempts[p.attempt := end.attempts[p.attempt]] == end.attempts;
  }

  lemma ReceiptFirst(s: Tables, e: Envelope, p: DispatchObserved, f: Envelope, r: ReceiptObserved)
    requires Racing(s, e, p, f, r)
    ensures ApplyBoth(s, f, e).Success? <==> Admissible(s, e, p, f, r) && Agrees(p.outcome, r.verdict)
    ensures ApplyBoth(s, f, e).Success? ==>
              ApplyBoth(s, f, e).value == ConcludedThenAbsorbed(s, e, p, f, r)
  {
    hide ValidContract, ValidDispatchObservation, ValidReceipt, Absorbed;
    hide Apply, CommitVerdict, Concluded, Confirmed, VerdictReceipt;
    ReceiptAlone(s, f, r);
    if Apply(s, f).Success? {
      var s' := Apply(s, f).value;
      ReceiptWrites(Consume(s, f, r.observedAt), f, p, r);
      if e.id == f.id {
        IdentityTaken(s, f, e);
      } else {
        LateAnswerAlone(s', e, p);
        if Apply(s', e).Success? {
          AbsorbConcluded(s, e, p, f, r);
        }
      }
    }
  }

  // The two together

  /** Over an attempt that is new, observing and absorbing differ in the completion time only. */
  lemma SameAttemptRow(a: Attempt, attempt: AttemptId, p: DispatchObserved, r: ReceiptObserved)
    requires a == NewAttempt(attempt, a.startedAt) && r.verdict == ReachedRecipient
    ensures Confirmed(Observed(a, Taken, p), r) ==
            Absorbed(Confirmed(a, r), p).(completedAt := Some(p.observedAt))
  {
  }

  lemma SameDeliveryRow(d: Delivery, p: DispatchObserved, r: ReceiptObserved)
    requires r.verdict == ReachedRecipient
    ensures Concluded(AcceptedRow(d, p.observedAt), r) ==
            Concluded(d, r).(revision := d.revision + 2, acceptedAt := Some(p.observedAt))
    ensures Concluded(d, r).revision == d.revision + 1
  {
  }

  lemma AttemptIsNew(
    hash: IntentId -> DeliveryId, s: Tables, e: Envelope, p: DispatchObserved, f: Envelope,
    r: ReceiptObserved)
    requires Inv(hash, s) && Racing(s, e, p, f, r)
    ensures s.attempts[p.attempt] == NewAttempt(p.attempt, s.attempts[p.attempt].startedAt)
  {
    hide Inv, ValidContract, ValidDispatchObservation, ValidReceipt;
    AttemptBelongs(hash, s, p.delivery, p.attempt);
  }

  lemma ReceiptsMeet(receipts: map<ReceiptKey, Receipt>, p: DispatchObserved, key: ReceiptKey, r: Receipt)
    requires p.outcome == ProviderAccepted && key.kind.FinalReceipt?
    ensures (if AddsReceipt(p) then receipts[AcceptanceKey(p) := AcceptanceReceipt(p)] else receipts)[key := r] ==
            match p.remoteReceipt
            case None => receipts[key := r]
            case Some(remote) => receipts[key := r][
              ReceiptKey(remote.source, remote.remoteId, AcceptedReceipt) :=
                Receipt(p.delivery, p.attempt, remote.digest, p.observedAt, p.observedAt)]
  {
  }

  lemma OrdersMeet(
    hash: IntentId -> DeliveryId, s: Tables, e: Envelope, p: DispatchObserved, f: Envelope,
    r: ReceiptObserved)
    requires Inv(hash, s) && Racing(s, e, p, f, r) && e.id != f.id && Open(s, p.delivery, p.attempt)
    requires p.outcome == ProviderAccepted && r.verdict == ReachedRecipient
    ensures AgreeButForOrder(AnsweredThenConcluded(s, e, p, f, r), ConcludedThenAbsorbed(s, e, p, f, r), p)
  {
    hide Inv, Racing, Concluded, AcceptedRow, Confirmed, Observed, Absorbed, VerdictReceipt;
    hide AcceptanceReceipt, AcceptanceKey, AddsReceipt;
    AttemptIsNew(hash, s, e, p, f, r);
    ReceiptsMeet(s.receipts, p, ReceiptKeyOf(r), VerdictReceipt(f, r));
    var d, a := s.deliveries[p.delivery], s.attempts[p.attempt];
    SameAttemptRow(a, p.attempt, p, r);
    SameDeliveryRow(d, p, r);
    var first, second := AnsweredThenConcluded(s, e, p, f, r), ConcludedThenAbsorbed(s, e, p, f, r);
    assert first.events == second.events;
    assert first.deliveries == second.deliveries[p.delivery := first.deliveries[p.delivery]];
    assert first.attempts == second.attempts[p.attempt := first.attempts[p.attempt]];
  }

  /** When each order commits, and that the only pair that commits in both, an acceptance and a
      delivery receipt, ends in the same ledger but for order. A bounce never follows the
      permanent failure it agrees with, though the failure may follow the bounce. */
  lemma AcceptanceAndDeliveryCommute(
    hash: IntentId -> DeliveryId, s: Tables, e: Envelope, p: DispatchObserved, f: Envelope,
    r: ReceiptObserved)
    requires Inv(hash, s) && Racing(s, e, p, f, r)
    ensures ApplyBoth(s, e, f).Success? <==>
              && Admissible(s, e, p, f, r)
              && p.outcome == ProviderAccepted
              && !EvidenceTaken(s, e, p)
              && s.deliveries[p.delivery].revision + 1 < MAX_SAFE_WIRE_INTEGER
    ensures ApplyBoth(s, f, e).Success? <==> Admissible(s, e, p, f, r) && Agrees(p.outcome, r.verdict)
    ensures ApplyBoth(s, e, f).Success? && ApplyBoth(s, f, e).Success? ==>
              AgreeButForOrder(ApplyBoth(s, e, f).value, ApplyBoth(s, f, e).value, p)
  {
    hide Inv, ApplyBoth, EvidenceClashes, AgreeButForOrder;
    AnswerFirst(s, e, p, f, r);
    ReceiptFirst(s, e, p, f, r);
    if ApplyBoth(s, e, f).Success? && ApplyBoth(s, f, e).Success? {
      OrdersMeet(hash, s, e, p, f, r);
    }
  }

  /** What was known stays; what was not is what the answer says, if it says anything. */
  predicate Fills<T(==)>(before: Option<T>, after: Option<T>, said: Option<T>) {
    after == if before.Some? then before else said
  }

  predicate FillsAttempt(a: Attempt, a': Attempt, p: DispatchObserved) {
    var remote, failure := p.remoteReceipt, p.failure;
    && a' == a.(provider := a'.provider, remoteId := a'.remoteId, remoteSource := a'.remoteSource,
                remoteDigest := a'.remoteDigest, failureCode := a'.failureCode,
                failureClass := a'.failureClass, completedAt := a'.completedAt)
    && Fills(a.provider, a'.provider, Some(p.provider))
    && Fills(a.remoteId, a'.remoteId, if remote.Some? then Some(remote.value.remoteId) else None)
    && Fills(a.remoteSource, a'.remoteSource, if remote.Some? then Some(remote.value.source) else None)
    && Fills(a.remoteDigest, a'.remoteDigest, if remote.Some? then Some(remote.value.digest) else None)
    && Fills(a.failureCode, a'.failureCode, if failure.Some? then Some(failure.value.code) else None)
    && Fills(a.failureClass, a'.failureClass,
             if failure.Some? then Some(failure.value.classification) else None)
    && Fills(a.completedAt, a'.completedAt, Some(p.observedAt))
  }

  /** A provider's answer that arrives when its delivery is no longer attempting moves no
      delivery and no status, adds no evidence, overwrites nothing its attempt already says, and
      fills in the rest. */
  lemma LateAnswerOnlyFills(s: Tables, e: Envelope, p: DispatchObserved, s': Tables)
    requires e.payload == Dispatch(p) && Known(s, p.delivery, p.attempt) && e.id !in s.events
    requires s.deliveries[p.delivery].status != Attempting && Apply(s, e) == Success(s')
    ensures p.attempt in s'.attempts
    ensures FillsAttempt(s.attempts[p.attempt], s'.attempts[p.attempt], p)
    ensures s'.attempts == s.attempts[p.attempt := s'.attempts[p.attempt]]
    ensures s'.events == s.events[
              e.id := ConsumedEvent(EventDigest(e.id, e.version, e.source, e.payload), p.observedAt)]
    ensures s' == s.(events := s'.events, attempts := s'.attempts)
  {
    hide ValidContract, ValidDispatchObservation, CommitOutcome, EvidenceClashes, HasReceipt;
  }
}
