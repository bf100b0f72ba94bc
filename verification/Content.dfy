/** What the provider is given to send. Every call for a delivery carries the content that the
    first committed rendering of its intent fixed, whichever attempt it belongs to. */
module Content {
  import opened Wrappers
  import opened Records
  import opened Transactions
  import opened Invariant
  import opened Evolution
  import opened System
  import opened Protocol
  import opened Guarantees

  predicate CarriesRows(q: DispatchRequest, intent: Intent, snapshot: Snapshot) {
    && q.address == intent.recipient.plaintext
    && q.locale == intent.locale
    && q.correlation == intent.correlation
    && q.release == snapshot.release
    && q.subject == snapshot.subject.plaintext
    && q.text == snapshot.text.plaintext
    && q.html == snapshot.html.plaintext
    && q.contentDigest == snapshot.contentDigest
  }

  /** The request holds what the rows of its delivery's intent and snapshot hold. */
  ghost predicate Carries(s: Tables, q: DispatchRequest) {
    && q.delivery in s.deliveries
    && Joined(s, s.deliveries[q.delivery].intent)
    && var intent := s.intents[s.deliveries[q.delivery].intent];
       && CarriesRows(q, intent, s.snapshots[intent.digest])
  }

  lemma StillCarries(s: Tables, s': Tables, q: DispatchRequest)
    requires Carries(s, q) && AppendOnly(s, s')
    ensures Carries(s', q)
  {
    hide SameAttempt, CarriesRows;
    assert q.delivery in s.deliveries;
    assert s.deliveries[q.delivery].intent in s.intents;
  }

  lemma ClaimCarries(
    s: Tables, keyReference: string, id: DeliveryId, now: Time, locked: set<DeliveryId>, s': Tables,
    q: DispatchRequest)
    requires Due(s, id, now, locked)
    requires ClaimRow(s, keyReference, id, now) == Success((s', q))
    ensures Carries(s', q)
  {
  }

  ghost predicate WorkerCarries(s: Tables, w: Worker) {
    match w
    case Idle => true
    case Holding(q, _) => Carries(s, q)
    case Answered(i) => Carries(s, i.request)
  }

  ghost predicate CarryInv(y: World) {
    && (forall w | 0 <= w < |y.workers| :: WorkerCarries(y.ledger, y.workers[w]))
    && (forall n | 0 <= n < |y.log| :: Carries(y.ledger, y.log[n].request))
  }

  lemma CarryStays(y: World, y': World)
    requires CarryInv(y) && AppendOnly(y.ledger, y'.ledger)
    requires y'.log == y.log && y'.workers == y.workers
    ensures CarryInv(y')
  {
    hide Carries, AppendOnly;
    forall w | 0 <= w < |y'.workers| ensures WorkerCarries(y'.ledger, y'.workers[w]) {
      assert WorkerCarries(y.ledger, y.workers[w]);
      match y.workers[w]
      case Idle =>
      case Holding(q, _) => StillCarries(y.ledger, y'.ledger, q);
      case Answered(i) => StillCarries(y.ledger, y'.ledger, i.request);
    }
    forall n | 0 <= n < |y'.log| ensures Carries(y'.ledger, y'.log[n].request) {
      StillCarries(y.ledger, y'.ledger, y.log[n].request);
    }
  }

  lemma NextCarries(hash: IntentId -> DeliveryId, y: World, event: Event, y': World)
    requires CarryInv(y) && Next(hash, y, event, y') && AppendOnly(y.ledger, y'.ledger)
    ensures CarryInv(y')
  {
    hide Carries, AppendOnly, Step, ClaimsDue, ClaimRow, Due;
    CarryStays(y, y.(ledger := y'.ledger));
    match event
    case Claims(w, keyReference, now, locked) =>
      var answer :| ClaimsDue(y.ledger, keyReference, now, locked, answer) && y' == Claimed(y, w, now, answer);
      if answer.Success? && answer.value.1.Some? {
        var id := AnsweredRow(y.ledger, keyReference, now, locked, answer);
        ClaimCarries(y.ledger, keyReference, id, now, locked, y'.ledger, answer.value.1.value);
      }
    case Invokes(w, instance, result) =>
      assert WorkerCarries(y.ledger, y.workers[w]);
    case Reports(_) =>
    case Stops(_) =>
    case Acts(_) =>
  }

  lemma {:induction false} RunCarries(hash: IntentId -> DeliveryId, trace: seq<World>, t: nat)
    requires Run(hash, trace) && t < |trace|
    ensures CarryInv(trace[t])
  {
    hide Next, AppendOnly, Carries, Inv;
    if t == 0 {
    } else {
      RunCarries(hash, trace, t - 1);
      RunIsAppendOnly(hash, trace, t - 1, t);
      assert Follows(hash, trace[t - 1], trace[t - 1 + 1]);
      var event :| Next(hash, trace[t - 1], event, trace[t]);
      NextCarries(hash, trace[t - 1], event, trace[t]);
    }
  }

  /** Two requests that say the same thing to the same recipient. */
  predicate SameContent(q: DispatchRequest, q': DispatchRequest) {
    && q'.address == q.address && q'.locale == q.locale && q'.correlation == q.correlation
    && q'.release == q.release && q'.contentDigest == q.contentDigest
    && q'.subject == q.subject && q'.text == q.text && q'.html == q.html
  }

  /** However often a delivery is tried, the provider is always given the same content. */
  lemma EveryCallSaysTheSame(hash: IntentId -> DeliveryId, trace: seq<World>, t: nat, m: nat, n: nat)
    requires Run(hash, trace) && t < |trace| && m < |trace[t].log| && n < |trace[t].log|
    requires trace[t].log[m].request.delivery == trace[t].log[n].request.delivery
    ensures SameContent(trace[t].log[m].request, trace[t].log[n].request)
  {
    hide Run;
    RunCarries(hash, trace, t);
    assert Carries(trace[t].ledger, trace[t].log[m].request);
    assert Carries(trace[t].ledger, trace[t].log[n].request);
  }

  /** The request is for the recipient and with the content that a create committed. */
  predicate Delivers(q: DispatchRequest, request: IntentRequest, rendered: Rendered) {
    && q.address == request.address && q.locale == request.locale
    && q.correlation == request.correlation
    && q.release == rendered.release
    && q.subject == rendered.subject && q.text == rendered.text && q.html == rendered.html
    && q.contentDigest == ContentDigest(q.subject, q.text, q.html)
  }

  lemma CommitFixes(
    hash: IntentId -> DeliveryId, s: Tables, request: IntentRequest, rendered: Rendered,
    keyReference: string, now: Time, s': Tables, id: DeliveryId)
    requires CreateIntent(s, hash, request, rendered, keyReference, now)
             == Success((s', IntentReceipt(id, Queued, false)))
    ensures id in s'.deliveries && s'.deliveries[id].intent == request.key
    ensures request.key in s'.intents
    ensures s'.intents[request.key] == IntentOf(request, keyReference, now)
    ensures RequestDigest(request) in s'.snapshots
    ensures s'.snapshots[RequestDigest(request)] == SnapshotOf(rendered, keyReference, now)
    ensures ValidRendered(request, rendered)
  {
    hide IntentOf, SnapshotOf;
  }

  /** Once a create has committed, every provider call ever made for its delivery carries the
      recipient it was asked for and the content it was committed with. */
  lemma ContentIsFixedAtCreation(
    hash: IntentId -> DeliveryId, trace: seq<World>, i: nat, t: nat, n: nat,
    request: IntentRequest, rendered: Rendered, keyReference: string, now: Time, id: DeliveryId)
    requires Run(hash, trace) && i + 1 <= t < |trace| && n < |trace[t].log|
    requires CreateIntent(trace[i].ledger, hash, request, rendered, keyReference, now)
             == Success((trace[i + 1].ledger, IntentReceipt(id, Queued, false)))
    requires trace[t].log[n].request.delivery == id
    ensures Delivers(trace[t].log[n].request, request, rendered)
  {
    hide Run, CreateIntent, SameAttempt;
    var s, q := trace[t].ledger, trace[t].log[n].request;
    CommitFixes(hash, trace[i].ledger, request, rendered, keyReference, now, trace[i + 1].ledger, id);
    RunIsAppendOnly(hash, trace, i + 1, t);
    RunCarries(hash, trace, t);
    assert Carries(s, q);
    assert id in s.deliveries && s.deliveries[id].intent == request.key;
  }
}
