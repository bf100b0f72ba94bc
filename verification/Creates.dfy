/** Creating intents under contention: whoever commits first fixes the intent, and every other
    request under the same caller and idempotency key gets its answer from that one. */
module Creates {
  import opened Wrappers
  import opened Records
  import opened Validation
  import opened Returns
  import opened Transactions
  import opened Invariant
  import opened Evolution
  import opened System
  import opened Protocol
  import opened Guarantees

  // One transaction

  lemma FreeKeyFits(hash: IntentId -> DeliveryId, s: Tables, request: IntentRequest)
    requires Inv(hash, s) && CollisionFree(hash) && request.key !in s.intents
    ensures hash(IntentId(request.key, RequestDigest(request))) !in s.deliveries
    ensures RequestDigest(request) !in s.snapshots
  {
    hide DeliveryInv;
    var digest := RequestDigest(request);
    assert digest in s.snapshots ==> SnapshotIdentity(s, digest);
    var id := hash(IntentId(request.key, digest));
    assert id in s.deliveries ==> DeliveryIdentity(hash, s, id);
  }

  /** The request may no longer be created. */
  predicate Expired(request: IntentRequest, now: Time) {
    request.expiresAt.Some? && request.expiresAt.value <= now
  }

  /** The rendering is of the template and locale that were asked for, admits to a fallback, and
      keeps every bound; its digest is of its own content. */
  predicate WellRendered(request: IntentRequest, rendered: Rendered) {
    && rendered.release.templateId == request.templateId
    && rendered.release.version == "v1"
    && rendered.requestedLocale == request.locale
    && (rendered.fallbackUsed <==> rendered.release.locale != request.locale)
    && Says(rendered.release.locale, 32) && 2 <= |rendered.release.locale|
    && Says(rendered.renderer, 160)
    && HexDigest(rendered.templateDigest)
    && Says(rendered.subject, 998)
    && (forall c | c in rendered.subject :: c !in {'\U{A}', '\U{D}'})
    && Says(rendered.text, 131_072)
    && Says(rendered.html, 262_144)
    && rendered.contentDigest.subject == rendered.subject
    && rendered.contentDigest.text == rendered.text
    && rendered.contentDigest.html == rendered.html
  }

  lemma RenderingExactlyWhen(request: IntentRequest, rendered: Rendered)
    ensures ValidRendered(request, rendered) <==> WellRendered(request, rendered)
  {
    hide RequiredBounded, Says, ValidDigest, HexDigest;
    BoundedExactlyWhen(rendered.release.locale, 32);
    BoundedExactlyWhen(rendered.renderer, 160);
    DigestExactlyWhen(rendered.templateDigest);
    BoundedExactlyWhen(rendered.subject, 998);
    BoundedExactlyWhen(rendered.text, 131_072);
    BoundedExactlyWhen(rendered.html, 262_144);
    assert '\U{A}' == '\n' && '\U{D}' == '\r';
  }

  predicate ReleaseChanged(s: Tables, rendered: Rendered) {
    && rendered.release in s.releases
    && s.releases[rendered.release].templateDigest != rendered.templateDigest
  }

  /** The columns of a new delivery: due at once, for four attempts. */
  predicate NewDelivery(d: Delivery, key: IntentKey, now: Time) {
    && d.intent == key && d.status == Queued && d.revision == 1
    && d.attemptCount == 0 && d.maxAttempts == 4
    && d.nextAttemptAt == Some(now) && d.createdAt == now && d.updatedAt == now
    && d.acceptedAt.None? && d.deliveredAt.None? && d.finalAt.None? && d.finalReason.None?
  }

  /** The columns of a new intent, with its recipient sealed. */
  predicate NewIntent(intent: Intent, request: IntentRequest, keyReference: string, now: Time) {
    && intent.digest.request == request
    && intent.entityType == request.entityType && intent.entityId == request.entityId
    && intent.recipient.plaintext == request.address && intent.recipient.keyReference == keyReference
    && intent.recipientMask == MaskEmail(request.address)
    && intent.locale == request.locale && intent.correlation == request.correlation
    && intent.requestedAt == now
  }

  /** The columns of a new snapshot, sealed under the same key as the recipient. */
  predicate NewSnapshot(snapshot: Snapshot, rendered: Rendered, keyReference: string, now: Time) {
    && snapshot.release == rendered.release
    && snapshot.subject.plaintext == rendered.subject && snapshot.text.plaintext == rendered.text
    && snapshot.html.plaintext == rendered.html
    && snapshot.subject.keyReference == snapshot.text.keyReference == snapshot.html.keyReference
       == keyReference
    && snapshot.contentDigest == rendered.contentDigest && snapshot.createdAt == now
  }

  /** A create adds one delivery, one intent and one snapshot, and their release if it is new. */
  ghost predicate Created(
    s: Tables, s': Tables, id: DeliveryId, request: IntentRequest, rendered: Rendered,
    keyReference: string, now: Time)
  {
    var digest, release := RequestDigest(request), rendered.release;
    && id !in s.deliveries && id in s'.deliveries
    && request.key in s'.intents && digest in s'.snapshots && release in s'.releases
    && NewDelivery(s'.deliveries[id], request.key, now)
    && NewIntent(s'.intents[request.key], request, keyReference, now)
    && NewSnapshot(s'.snapshots[digest], rendered, keyReference, now)
    && s'.deliveries == s.deliveries[id := s'.deliveries[id]]
    && s'.intents == s.intents[request.key := s'.intents[request.key]]
    && s'.snapshots == s.snapshots[digest := s'.snapshots[digest]]
    && (if release in s.releases then s'.releases == s.releases
        else s'.releases == s.releases[
               release := Release(rendered.renderer, rendered.templateDigest, now)])
    && s' == s.(deliveries := s'.deliveries, intents := s'.intents, snapshots := s'.snapshots,
                releases := s'.releases)
  }

  lemma CommitWrites(
    s: Tables, hash: IntentId -> DeliveryId, request: IntentRequest, rendered: Rendered, keyReference: string,
    now: Time, s': Tables, id: DeliveryId)
    requires CreateIntent(s, hash, request, rendered, keyReference, now)
             == Success((s', IntentReceipt(id, Queued, false)))
    ensures Created(s, s', id, request, rendered, keyReference, now)
  {
    hide ValidRendered, ValidRequest, MaskFits, MaskEmail;
  }

  lemma CreateBranches(
    hash: IntentId -> DeliveryId, s: Tables, request: IntentRequest, rendered: Rendered,
    keyReference: string, now: Time)
    requires Inv(hash, s) && CollisionFree(hash)
    ensures var id := hash(IntentId(request.key, RequestDigest(request)));
            var answer := CreateIntent(s, hash, request, rendered, keyReference, now);
            if Expired(request, now) then answer == Failure(Validation)
            else if !ValidRendered(request, rendered) then answer == Failure(Internal)
            else if request.key in s.intents then
              if s.intents[request.key].digest.request != request then
                answer == Failure(Conflict)
              else
                id in s.deliveries
                && answer == Success((s, IntentReceipt(id, s.deliveries[id].status, true)))
            else if ReleaseChanged(s, rendered) || !MaskFits(request.address) then
              answer == Failure(Internal)
            else
              answer.Success? && answer.value.1 == IntentReceipt(id, Queued, false)
  {
    hide DeliveryInv, ValidRendered, MaskFits, CommitCreate;
    if request.key in s.intents {
      assert IntentRow(hash, s, request.key);
    } else {
      FreeKeyFits(hash, s, request);
    }
  }

  /** What a create comes to. An expired request or a rendering that keeps a bound wrong is
      refused. After that no unique key ever aborts: the idempotency key decides between an
      answer and a commit, and only a release whose template has changed or a recipient whose
      mask is out of bounds refuses a new intent. */
  lemma CreateDecides(
    hash: IntentId -> DeliveryId, s: Tables, request: IntentRequest, rendered: Rendered,
    keyReference: string, now: Time)
    requires Inv(hash, s) && CollisionFree(hash)
    ensures var id := hash(IntentId(request.key, RequestDigest(request)));
            var answer := CreateIntent(s, hash, request, rendered, keyReference, now);
            if Expired(request, now) then answer == Failure(Validation)
            else if !WellRendered(request, rendered) then answer == Failure(Internal)
            else if request.key in s.intents then
              if s.intents[request.key].digest.request != request then
                answer == Failure(Conflict)
              else
                id in s.deliveries
                && answer == Success((s, IntentReceipt(id, s.deliveries[id].status, true)))
            else if ReleaseChanged(s, rendered) || !MaskFits(request.address) then
              answer == Failure(Internal)
            else
              && answer.Success? && answer.value.1 == IntentReceipt(id, Queued, false)
              && Created(s, answer.value.0, id, request, rendered, keyReference, now)
  {
    hide Inv, CreateIntent, CommitCreate, WellRendered, MaskFits, Created;
    CreateBranches(hash, s, request, rendered, keyReference, now);
    RenderingExactlyWhen(request, rendered);
    var id := hash(IntentId(request.key, RequestDigest(request)));
    var answer := CreateIntent(s, hash, request, rendered, keyReference, now);
    if answer.Success? && !answer.value.1.replay {
      CommitWrites(s, hash, request, rendered, keyReference, now, answer.value.0, id);
    }
  }

  lemma RowsStay(s: Tables, s': Tables, id: DeliveryId, request: IntentRequest)
    requires AppendOnly(s, s') && id in s.deliveries && request.key in s.intents
    requires RequestDigest(request) in s.snapshots
    ensures id in s'.deliveries && request.key in s'.intents && RequestDigest(request) in s'.snapshots
    ensures s'.intents[request.key] == s.intents[request.key]
    ensures s'.snapshots[RequestDigest(request)] == s.snapshots[RequestDigest(request)]
    ensures s'.deliveries[id].intent == s.deliveries[id].intent
    ensures s'.deliveries[id].maxAttempts == s.deliveries[id].maxAttempts
    ensures s'.deliveries[id].createdAt == s.deliveries[id].createdAt
  {
    hide SameAttempt;
  }

  /** What a create committed is there at every later point of every run: its delivery keeps its
      limit of four attempts, its intent and its snapshot every column. */
  lemma CreatedIsKept(
    hash: IntentId -> DeliveryId, trace: seq<World>, i: nat, j: nat, request: IntentRequest,
    rendered: Rendered, keyReference: string, now: Time, id: DeliveryId)
    requires Run(hash, trace) && i + 1 <= j < |trace|
    requires CreateIntent(trace[i].ledger, hash, request, rendered, keyReference, now)
             == Success((trace[i + 1].ledger, IntentReceipt(id, Queued, false)))
    ensures var s := trace[j].ledger;
            && id in s.deliveries && request.key in s.intents && RequestDigest(request) in s.snapshots
            && s.deliveries[id].intent == request.key && s.deliveries[id].maxAttempts == 4
            && s.deliveries[id].createdAt == now
            && NewIntent(s.intents[request.key], request, keyReference, now)
            && NewSnapshot(s.snapshots[RequestDigest(request)], rendered, keyReference, now)
  {
    hide Run, AppendOnly, CreateIntent, NewIntent, NewSnapshot;
    CommitWrites(trace[i].ledger, hash, request, rendered, keyReference, now, trace[i + 1].ledger, id);
    RunIsAppendOnly(hash, trace, i + 1, j);
    RowsStay(trace[i + 1].ledger, trace[j].ledger, id, request);
  }

  /** A mask is out of bounds exactly when the address has more than 315 characters behind its
      last at sign. */
  lemma MaskFitsExactlyWhen(address: string, domain: string)
    requires '@' in address ==>
               |domain| < |address| && address[|address| - |domain| - 1] == '@'
               && address[|address| - |domain|..] == domain && '@' !in domain
    ensures MaskFits(address) <==> '@' !in address || |domain| <= 315
  {
    if '@' in address {
      var at, found := |address| - |domain| - 1, LastAt(address).value;
      assert forall k | at < k < |address| :: address[k] == domain[k - at - 1] != '@';
      assert forall k | found < k < |address| :: address[k] == address[found + 1..][k - found - 1] != '@';
      assert at == found;
    }
  }

  lemma LastAtIs(address: string, local: string, domain: string)
    requires address == local + "@" + domain && '@' !in domain
    ensures LastAt(address) == Some(|local|) && address[|local| + 1..] == domain
  {
    var at := |local|;
    assert address[at] == '@' && address[at + 1..] == domain;
    var found := LastAt(address).value;
    assert forall k | at < k < |address| :: address[k] == address[at + 1..][k - at - 1];
    assert forall k | found < k < |address| :: address[k] == address[found + 1..][k - found - 1];
  }

  /** The mask shows the first character of the local part, or a star if it is empty, and all of
      the domain behind the last at sign; an address without one is hidden whole. */
  lemma MaskShows(address: string, local: string, domain: string)
    requires '@' in address ==> address == local + "@" + domain && '@' !in domain
    ensures MaskEmail(address) ==
            if '@' !in address then "***"
            else (if local == "" then "*" else local[..1]) + "***@" + domain
  {
    if '@' in address {
      LastAtIs(address, local, domain);
      assert local != "" ==> local[..1] == [address[0]];
    }
  }

  /** The rows behind one idempotency key are one of each kind. */
  lemma OneOfEach(hash: IntentId -> DeliveryId, s: Tables, key: IntentKey)
    requires Inv(hash, s) && key in s.intents
    ensures exists id :: id in s.deliveries && s.deliveries[id].intent == key
                         && forall other | other in s.deliveries && s.deliveries[other].intent == key :: other == id
    ensures exists g :: g in s.snapshots && g.request.key == key
                        && forall other | other in s.snapshots && other.request.key == key :: other == g
  {
    hide DeliveryInv;
    var digest := s.intents[key].digest;
    assert IntentRow(hash, s, key);
    var id := hash(IntentId(key, digest));
    forall other | other in s.deliveries && s.deliveries[other].intent == key ensures other == id {
      assert DeliveryIdentity(hash, s, other);
    }
    forall other | other in s.snapshots && other.request.key == key ensures other == digest {
      assert SnapshotIdentity(s, other);
    }
  }

  // Over runs

  /** What every later request under the key is answered, from the winner's request on. */
  ghost predicate Settled(
    hash: IntentId -> DeliveryId, s: Tables, winner: IntentRequest)
  {
    && winner.key in s.intents
    && s.intents[winner.key].digest == RequestDigest(winner)
    && hash(IntentId(winner.key, RequestDigest(winner))) in s.deliveries
  }

  lemma SettledAnswers(
    hash: IntentId -> DeliveryId, s: Tables, winner: IntentRequest, request: IntentRequest,
    rendered: Rendered, keyReference: string, now: Time)
    requires Settled(hash, s, winner) && request.key == winner.key
    ensures var id := hash(IntentId(winner.key, RequestDigest(winner)));
            && FindReplay(s, hash, request, now) ==
               (if Expired(request, now) then Failure(Validation)
                else if request != winner then Failure(Conflict)
                else Success(Some(IntentReceipt(id, s.deliveries[id].status, true))))
            && CreateIntent(s, hash, request, rendered, keyReference, now) ==
               (if Expired(request, now) then Failure(Validation)
                else if !WellRendered(request, rendered) then Failure(Internal)
                else if request != winner then Failure(Conflict)
                else Success((s, IntentReceipt(id, s.deliveries[id].status, true))))
  {
    hide ValidRendered, WellRendered, CommitCreate, MaskFits;
    RenderingExactlyWhen(request, rendered);
  }

  lemma CommitSettles(
    hash: IntentId -> DeliveryId, s: Tables, request: IntentRequest, rendered: Rendered,
    keyReference: string, now: Time, s': Tables, receipt: IntentReceipt)
    requires Inv(hash, s)
    requires CreateIntent(s, hash, request, rendered, keyReference, now) == Success((s', receipt))
    ensures Settled(hash, s', request)
    ensures receipt.delivery == hash(IntentId(request.key, RequestDigest(request)))
  {
    hide DeliveryInv, ValidRendered, ValidRequest, QueuedRow, SnapshotOf, ReleaseOf, Owned;
    hide DeliveryIdentity, SnapshotIdentity;
    if receipt.replay {
      assert IntentRow(hash, s, request.key);
    }
  }

  lemma StaysSettled(hash: IntentId -> DeliveryId, s: Tables, s': Tables, winner: IntentRequest)
    requires Settled(hash, s, winner) && AppendOnly(s, s')
    ensures Settled(hash, s', winner)
  {
    var id := hash(IntentId(winner.key, RequestDigest(winner)));
    assert id in s.deliveries;
  }

  /** Racing creates linearize. Once a create has been answered, by a commit or a replay, then at
      every later point of every run a request under its key is answered from it: the same
      request gets the same delivery and writes nothing, another request conflicts and writes
      nothing, whatever either of them rendered. Only a request that has expired, or a rendering
      that is not valid, is refused before that. */
  lemma RacingCreatesLinearize(
    hash: IntentId -> DeliveryId, trace: seq<World>, i: nat, j: nat,
    winner: IntentRequest, first: Rendered, keyReference: string, now: Time, receipt: IntentReceipt,
    request: IntentRequest, rendered: Rendered, keyReference': string, now': Time)
    requires Run(hash, trace) && i + 1 <= j < |trace|
    requires CreateIntent(trace[i].ledger, hash, winner, first, keyReference, now)
             == Success((trace[i + 1].ledger, receipt))
    requires request.key == winner.key
    ensures receipt.delivery in trace[j].ledger.deliveries
    ensures var s := trace[j].ledger;
            CreateIntent(s, hash, request, rendered, keyReference', now') ==
            if Expired(request, now') then Failure(Validation)
            else if !WellRendered(request, rendered) then Failure(Internal)
            else if request != winner then Failure(Conflict)
            else Success((s, IntentReceipt(
                                receipt.delivery, s.deliveries[receipt.delivery].status, true)))
  {
    hide Run, Inv, CreateIntent, AppendOnly, ValidRendered;
    RunKeepsWorldInv(hash, trace, i);
    CommitSettles(hash, trace[i].ledger, winner, first, keyReference, now, trace[i + 1].ledger, receipt);
    RunIsAppendOnly(hash, trace, i + 1, j);
    StaysSettled(hash, trace[i + 1].ledger, trace[j].ledger, winner);
    SettledAnswers(hash, trace[j].ledger, winner, request, rendered, keyReference', now');
  }

  lemma ExpiredIsRefused(
    hash: IntentId -> DeliveryId, s: Tables, request: IntentRequest, rendered: Rendered,
    keyReference: string, now: Time)
    requires Expired(request, now)
    ensures CreateIntent(s, hash, request, rendered, keyReference, now) == Failure(Validation)
  {
  }

  /** What the lock-free lookup answers at any point, the locked transaction answers at every
      later point: the same delivery, or the same refusal. */
  lemma FastPathIsFinal(
    hash: IntentId -> DeliveryId, trace: seq<World>, i: nat, j: nat, request: IntentRequest,
    rendered: Rendered, keyReference: string, now: Time)
    requires Run(hash, trace) && i <= j < |trace|
    requires WellRendered(request, rendered)
    ensures var fast := FindReplay(trace[i].ledger, hash, request, now);
            var locked := CreateIntent(trace[j].ledger, hash, request, rendered, keyReference, now);
            match fast
            case Failure(error) => locked == Failure(error)
            case Success(Some(receipt)) =>
              && receipt.delivery in trace[j].ledger.deliveries
              && locked == Success((trace[j].ledger, receipt.(
                                    status := trace[j].ledger.deliveries[receipt.delivery].status)))
            case Success(None) => request.key !in trace[i].ledger.intents
  {
    hide Run, DeliveryInv, CreateIntent, AppendOnly, ValidRendered;
    RunKeepsWorldInv(hash, trace, i);
    var s := trace[i].ledger;
    if request.key in s.intents {
      assert IntentRow(hash, s, request.key);
      var winner := s.intents[request.key].digest.request;
      RunIsAppendOnly(hash, trace, i, j);
      StaysSettled(hash, s, trace[j].ledger, winner);
      SettledAnswers(hash, s, winner, request, rendered, keyReference, now);
      SettledAnswers(hash, trace[j].ledger, winner, request, rendered, keyReference, now);
    } else if Expired(request, now) {
      ExpiredIsRefused(hash, trace[j].ledger, request, rendered, keyReference, now);
    }
  }

  lemma ReleaseStays(s: Tables, s': Tables, key: ReleaseKey)
    requires AppendOnly(s, s') && key in s.releases
    ensures key in s'.releases && s'.releases[key] == s.releases[key]
  {
  }

  lemma StoredUnderRelease(
    s: Tables, hash: IntentId -> DeliveryId, request: IntentRequest, rendered: Rendered, keyReference: string,
    now: Time, s': Tables, id: DeliveryId)
    requires CreateIntent(s, hash, request, rendered, keyReference, now)
             == Success((s', IntentReceipt(id, Queued, false)))
    ensures var key := rendered.release;
            && key in s'.releases && s'.releases[key].templateDigest == rendered.templateDigest
            && (key in s.releases ==> s.releases[key] == s'.releases[key])
  {
    hide ValidRendered, ValidRequest, FindReplay, MaskFits, SnapshotOf, IntentOf, QueuedRow;
  }

  /** Two renderings that were ever stored under one template release agree on its digest. */
  lemma ReleaseIsImmutable(
    hash: IntentId -> DeliveryId, trace: seq<World>, i: nat, j: nat,
    request: IntentRequest, rendered: Rendered, keyReference: string, now: Time, id: DeliveryId,
    request': IntentRequest, rendered': Rendered, keyReference': string, now': Time, id': DeliveryId)
    requires Run(hash, trace) && i < j < |trace| - 1
    requires CreateIntent(trace[i].ledger, hash, request, rendered, keyReference, now)
             == Success((trace[i + 1].ledger, IntentReceipt(id, Queued, false)))
    requires CreateIntent(trace[j].ledger, hash, request', rendered', keyReference', now')
             == Success((trace[j + 1].ledger, IntentReceipt(id', Queued, false)))
    requires rendered'.release == rendered.release
    ensures rendered'.templateDigest == rendered.templateDigest
  {
    hide Run, AppendOnly, CreateIntent;
    StoredUnderRelease(
      trace[i].ledger, hash, request, rendered, keyReference, now, trace[i + 1].ledger, id);
    StoredUnderRelease(
      trace[j].ledger, hash, request', rendered', keyReference', now', trace[j + 1].ledger, id');
    RunIsAppendOnly(hash, trace, i + 1, j);
    ReleaseStays(trace[i + 1].ledger, trace[j].ledger, rendered.release);
  }
}
