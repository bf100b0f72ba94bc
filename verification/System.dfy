/** Any number of dispatch workers over one ledger. A worker claims a delivery, calls the
    provider outside any transaction, and records the outcome in another transaction; it may
    stop for good between any two of these. Receipts, cancellations, manual retries and creates
    run in between, in any order. Transactions are atomic. */
module System {
  import opened Wrappers
  import opened Records
  import opened Validation
  import opened Transactions
  import opened Invariant
  import opened Evolution

  /** One call of the provider: what was sent, by a worker whose claim ran at `since`, and how
      the call returned. */
  datatype Invocation =
    Invocation(request: DispatchRequest, instance: string, since: Time, result: ProviderResult)

  datatype Worker =
    | Idle
    | Holding(request: DispatchRequest, since: Time)
    | Answered(invocation: Invocation)

  datatype World = World(ledger: Tables, workers: seq<Worker>, log: seq<Invocation>)

  datatype Event =
    | Claims(worker: nat, keyReference: string, now: Time, locked: set<DeliveryId>)
    | Invokes(worker: nat, instance: string, result: ProviderResult)
    | Reports(worker: nat)
    | Stops(worker: nat)
    | Acts(action: Action)

  /** The observation an invocation led to. */
  function Outcome(i: Invocation): DispatchObserved {
    Observe(i.request, i.instance, i.since, i.result)
  }

  /** The worker's own observation envelope. */
  function Report(i: Invocation): Envelope {
    var p := Outcome(i);
    Envelope(DispatchObservation(p.attempt), 1, p.provider, p.observedAt, Dispatch(p))
  }

  /** Actions of callers other than dispatch workers. */
  predicate External(action: Action) {
    match action
    case ObserveEvent(e) => !e.payload.Dispatch?
    case ClaimDue(_, _, _) => false
    case _ => true
  }

  /** The world after worker `w` has claimed at `now` and was answered. */
  function Claimed(
    y: World, w: nat, now: Time, answer: Result<(Tables, Option<DispatchRequest>)>): World
    requires w < |y.workers|
  {
    y.(ledger := After(y.ledger, answer),
       workers := if answer.Success? && answer.value.1.Some? then
                    y.workers[w := Holding(answer.value.1.value, now)]
                  else
                    y.workers)
  }

  ghost predicate Next(hash: IntentId -> DeliveryId, y: World, event: Event, y': World) {
    match event
    case Claims(w, keyReference, now, locked) =>
      && w < |y.workers| && y.workers[w].Idle?
      && exists answer ::
           && ClaimsDue(y.ledger, keyReference, now, locked, answer)
           && y' == Claimed(y, w, now, answer)
    case Invokes(w, instance, result) =>
      && w < |y.workers| && y.workers[w].Holding? && ValidInstance(instance)
      && var i := Invocation(y.workers[w].request, instance, y.workers[w].since, result);
         y' == y.(workers := y.workers[w := Answered(i)], log := y.log + [i])
    case Reports(w) =>
      && w < |y.workers| && y.workers[w].Answered?
      && Step(hash, y.ledger, ObserveEvent(Report(y.workers[w].invocation)), y'.ledger)
      && y' == y.(ledger := y'.ledger, workers := y.workers[w := Idle])
    case Stops(w) =>
      && w < |y.workers|
      && y' == y.(workers := y.workers[w := Idle])
    case Acts(action) =>
      && External(action)
      && Step(hash, y.ledger, action, y'.ledger)
      && y' == y.(ledger := y'.ledger)
  }

  /** A ledger in good order with nothing dispatched from it yet. */
  ghost predicate Start(hash: IntentId -> DeliveryId, y: World) {
    && Inv(hash, y.ledger)
    && y.ledger.attempts == map[] && y.ledger.events == map[]
    && (forall w | w in y.workers :: w.Idle?)
    && y.log == []
  }

  /** Any number of idle workers over an empty ledger make a start. */
  lemma EmptyWorldStarts(hash: IntentId -> DeliveryId, workers: seq<Worker>)
    requires forall w | w in workers :: w.Idle?
    ensures Start(hash, World(EMPTY, workers, []))
  {
    EmptyLedger(hash);
  }

  lemma SomeAnswer(s: Tables, keyReference: string, now: Time, locked: set<DeliveryId>)
    returns (answer: Result<(Tables, Option<DispatchRequest>)>)
    ensures ClaimsDue(s, keyReference, now, locked, answer)
  {
    hide ClaimAnswer, ClaimedBefore;
    if some :| Due(s, some, now, locked) {
      var due := set id | id in s.deliveries && Due(s, id, now, locked);
      var first := FirstDueExists(s, now, locked, due, some);
      assert FirstDue(s, first, now, locked);
      answer := ClaimAnswer(s, keyReference, first, now);
    } else {
      answer := Success((s, None));
    }
  }

  /** Whatever may happen next: an idle worker may claim under any key and at any time, one that
      holds a claim may call any instance and have any return, one that was answered may report,
      every worker may stop, and anyone else may do anything but claim or report a dispatch. */
  predicate Possible(y: World, event: Event) {
    match event
    case Claims(w, _, _, _) => w < |y.workers| && y.workers[w] == Idle
    case Invokes(w, instance, _) => w < |y.workers| && y.workers[w].Holding? && ValidInstance(instance)
    case Reports(w) => w < |y.workers| && y.workers[w].Answered?
    case Stops(w) => w < |y.workers|
    case Acts(ObserveEvent(e)) => e.payload.Authoritative? || e.payload.Invitation? || e.payload.Undeclared?
    case Acts(RetryNow(_, _, _, _, _)) => true
    case Acts(Create(_, _, _, _)) => true
    case Acts(ClaimDue(_, _, _)) => false
  }

  /** No run is stuck, and none is kept from going on in any of the ways it may. */
  lemma EverythingMayHappen(hash: IntentId -> DeliveryId, y: World, event: Event)
    ensures Possible(y, event) <==> exists y' :: Next(hash, y, event, y')
  {
    hide ClaimsDue, Apply, RequestManualRetry, CreateIntent, ValidInstance;
    if Possible(y, event) {
      match event
      case Claims(w, keyReference, now, locked) =>
        var answer := SomeAnswer(y.ledger, keyReference, now, locked);
        assert Next(hash, y, event, Claimed(y, w, now, answer));
      case Invokes(w, instance, result) =>
        var i := Invocation(y.workers[w].request, instance, y.workers[w].since, result);
        assert Next(hash, y, event, y.(workers := y.workers[w := Answered(i)], log := y.log + [i]));
      case Reports(w) =>
        var e := Report(y.workers[w].invocation);
        var ledger := if Apply(y.ledger, e).Success? then Apply(y.ledger, e).value else y.ledger;
        assert Next(hash, y, event, y.(ledger := ledger, workers := y.workers[w := Idle]));
      case Stops(w) => assert Next(hash, y, event, y.(workers := y.workers[w := Idle]));
      case Acts(ObserveEvent(e)) =>
        var ledger := if Apply(y.ledger, e).Success? then Apply(y.ledger, e).value else y.ledger;
        assert Next(hash, y, event, y.(ledger := ledger));
      case Acts(RetryNow(id, revision, key, requestedBy, now)) =>
        var ledger := After(y.ledger, RequestManualRetry(y.ledger, id, revision, key, requestedBy, now));
        assert Next(hash, y, event, y.(ledger := ledger));
      case Acts(Create(request, rendered, keyReference, now)) =>
        var ledger := After(y.ledger, CreateIntent(y.ledger, hash, request, rendered, keyReference, now));
        assert Next(hash, y, event, y.(ledger := ledger));
    }
  }

  ghost predicate Follows(hash: IntentId -> DeliveryId, y: World, y': World) {
    exists event :: Next(hash, y, event, y')
  }

  /** A run: every world follows from the one before it by one event. */
  ghost predicate Run(hash: IntentId -> DeliveryId, trace: seq<World>) {
    && trace != []
    && Start(hash, trace[0])
    && forall i | 0 <= i < |trace| - 1 :: Follows(hash, trace[i], trace[i + 1])
  }

  /** The provider calls made for one delivery, in order. */
  ghost function Invocations(log: seq<Invocation>, id: DeliveryId): seq<Invocation> {
    if log == [] then
      []
    else
      var last := log[|log| - 1];
      Invocations(log[..|log| - 1], id) + if last.request.delivery == id then [last] else []
  }

  lemma InvocationsAppend(log: seq<Invocation>, i: Invocation, id: DeliveryId)
    ensures Invocations(log + [i], id) ==
            Invocations(log, id) + if i.request.delivery == id then [i] else []
  {
    assert (log + [i])[..|log|] == log;
  }

  // The protocol's invariant

  /** The calls for a delivery are its attempts in order; only the last attempt may lack one. */
  ghost predicate LogInv(log: seq<Invocation>, id: DeliveryId, attempts: int) {
    var sent := Invocations(log, id);
    && attempts - 1 <= |sent| <= attempts
    && (forall n | 0 <= n < |sent| ::
          && sent[n].request.attempt == AttemptId(id, n + 1)
          && sent[n].request.run == RunId(AttemptId(id, n + 1))
          && sent[n].request.delivery == id
          && ValidInstance(sent[n].instance))
  }

  /** A consumed dispatch observation is the outcome of the call made for its attempt. */
  ghost predicate Reported(log: seq<Invocation>, p: DispatchObserved) {
    && 1 <= p.attempt.sequence <= |Invocations(log, p.attempt.delivery)|
    && p == Outcome(Invocations(log, p.attempt.delivery)[p.attempt.sequence - 1])
  }

  ghost predicate EventInv(log: seq<Invocation>, events: map<Key, ConsumedEvent>) {
    forall e | e in events && events[e].digest.payload.Dispatch? ::
      Reported(log, events[e].digest.payload.dispatch)
  }

  ghost predicate Busy(w: Worker, attempt: AttemptId) {
    match w
    case Idle => false
    case Holding(request, _) => request.attempt == attempt
    case Answered(i) => i.request.attempt == attempt
  }

  ghost predicate WorkerInv(ledger: Tables, log: seq<Invocation>, w: Worker) {
    match w
    case Idle => true
    case Holding(q, _) =>
      && q.attempt in ledger.attempts
      && q.delivery == q.attempt.delivery
      && q.run == RunId(q.attempt)
      && q.attempt.sequence == |Invocations(log, q.delivery)| + 1
    case Answered(i) =>
      && i.request.attempt in ledger.attempts
      && i.request.delivery == i.request.attempt.delivery
      && Reported(log, Outcome(i))
  }

  ghost predicate Separate(workers: seq<Worker>) {
    forall v, w, attempt | 0 <= v < w < |workers| :: !(Busy(workers[v], attempt) && Busy(workers[w], attempt))
  }

  ghost predicate WorldInv(hash: IntentId -> DeliveryId, y: World) {
    && Inv(hash, y.ledger)
    && (forall id | id in y.ledger.deliveries ::
          LogInv(y.log, id, y.ledger.deliveries[id].attemptCount))
    && (forall id | id !in y.ledger.deliveries :: Invocations(y.log, id) == [])
    && EventInv(y.log, y.ledger.events)
    && (forall w | 0 <= w < |y.workers| :: WorkerInv(y.ledger, y.log, y.workers[w]))
    && Separate(y.workers)
  }
}
