/** The broker's delivery protocol as a state machine. Each region the service runs under its
    settlement lock is one step; the queue is any store that keeps messages by id; every clock
    reading is an input. `accepted`, `acked`, `issued`, `settled` and `installs` are history. */
module DeliveryModel {
  import opened Options

  /** Message and client ids, compared only. */
  type Id(==, !new)

  /** An attempt token as a client sends it. */
  datatype Token = Token(text: string)

  const MAX_DELIVERIES: nat := 0xFFFF_FFFF_FFFF_FFFF
  const MAX_RETRY_LIMIT: nat := 0xFFFF_FFFF
  const CLOCK_MAX: int := 0x7FFF_FFFF_FFFF_FFFF
  const NANOS_PER_MILLI: int := 1_000_000

  /** Durations in nanoseconds; the default time to live in milliseconds, zero for none. */
  datatype Config = Config(maxRetries: nat, defaultTtl: nat, lease: int, retention: int,
                           cacheMax: nat, batch: nat)
  {
    predicate Valid() {
      1 <= maxRetries <= MAX_RETRY_LIMIT && 0 < lease && 0 < retention && 1 <= cacheMax && 1 <= batch
    }
  }

  datatype Message = Message(id: Id, arrival: int, ttl: nat, retryCount: nat, maxRetries: nat, deliveryCount: nat)
  {
    /** When the message expires, saturating at the end of the clock. */
    function ExpiryTime(): int {
      if arrival + ttl * NANOS_PER_MILLI > CLOCK_MAX then CLOCK_MAX else arrival + ttl * NANOS_PER_MILLI
    }

    predicate Expired(at: int) {
      ttl > 0 && at >= ExpiryTime()
    }
  }

  datatype Settlement = Ack | Nack | LeaseExpired

  datatype Attempt = Attempt(message: Message, owner: Id, token: Token, deadline: int, attemptId: nat)

  datatype Lease = Lease(at: int, id: Id)

  datatype Completion = Completion(id: Id, token: Token, owner: Id, kind: Settlement, time: int)

  datatype Outcome = Outcome(id: Id, owner: Id, kind: Settlement)

  datatype Reason = MaxRetriesExceeded | TtlExpired

  datatype DeadLetter = DeadLetter(message: Message, reason: Reason)

  /** Held by a thread between two locked regions: swept and on its way to the dead letters, or
      pulled and not yet installed. */
  datatype Transit = Swept(message: Message) | Pulled(message: Message)

  datatype Status = Ok | PermissionDenied | InvalidArgument | NotFound | FailedPrecondition
                  | Cancelled | ResourceExhausted | Internal

  datatype Broker = Broker(
    queue: map<Id, Message>, transit: map<Id, Transit>, inFlight: map<Id, Attempt>,
    deadlines: seq<Lease>, completions: seq<Completion>, completed: map<Token, Completion>,
    dlq: seq<DeadLetter>, consumers: set<Id>, clock: int,
    accepted: set<Id>, acked: map<Id, Message>, issued: set<Token>, settled: map<Token, Outcome>,
    installs: seq<Id>)

  function Init(): Broker {
    Broker(map[], map[], map[], [], [], map[], [], {}, 0, {}, map[], {}, map[], [])
  }

  // ----- the deadline index -----

  /** A multimap insert: after every lease that is not later. */
  function InsertLease(ds: seq<Lease>, x: Lease): seq<Lease> {
    if ds == [] || x.at < ds[0].at then [x] + ds else [ds[0]] + InsertLease(ds[1..], x)
  }

  function RemoveLease(ds: seq<Lease>, x: Lease): seq<Lease> {
    if ds == [] then [] else if ds[0] == x then ds[1..] else [ds[0]] + RemoveLease(ds[1..], x)
  }

  // ----- the completion history -----

  function RemoveCompletion(cs: seq<Completion>, x: Completion): seq<Completion> {
    if cs == [] then [] else if cs[0] == x then cs[1..] else [cs[0]] + RemoveCompletion(cs[1..], x)
  }

  predicate Stale(c: Config, b: Broker, now: int) {
    b.completions != [] && (|b.completions| > c.cacheMax || now - b.completions[0].time >= c.retention)
  }

  function DropOldest(b: Broker): Broker
    requires b.completions != []
  {
    b.(completed := b.completed - {b.completions[0].token}, completions := b.completions[1..])
  }

  /** Evict the oldest outcomes while they are over capacity or over age, within a budget. */
  function Prune(c: Config, b: Broker, budget: nat, now: int): Broker
    decreases budget
  {
    if budget > 0 && Stale(c, b, now) then Prune(c, DropOldest(b), budget - 1, now) else b
  }

  // ----- finishing an attempt -----

  /** The clock readings a finish takes: expiry check, completion record, pruning. */
  datatype FinishTimes = FinishTimes(expiryAt: int, recordAt: int, pruneAt: int)
  {
    predicate From(start: int) {
      start <= expiryAt <= recordAt <= pruneAt
    }
  }

  /** Where a finished attempt's message goes. */
  function Route(b: Broker, m: Message, kind: Settlement, expired: bool): (r: Broker)
    ensures r == b.(queue := r.queue, dlq := r.dlq, acked := r.acked)
  {
    if expired then b.(dlq := b.dlq + [DeadLetter(m, TtlExpired)])
    else if kind == Ack then b.(acked := b.acked[m.id := m])
    else
      var retried := m.(retryCount := m.retryCount + 1);
      if retried.retryCount >= m.maxRetries then b.(dlq := b.dlq + [DeadLetter(retried, MaxRetriesExceeded)])
      else b.(queue := b.queue[m.id := retried])
  }

  /** Record the outcome and drop the lease. */
  function Record(b: Broker, id: Id, kind: Settlement, at: int): Broker
    requires id in b.inFlight
  {
    var e := b.inFlight[id];
    var x := Completion(id, e.token, e.owner, kind, at);
    b.(completions := b.completions + [x],
       completed := if e.token in b.completed then b.completed else b.completed[e.token := x],
       deadlines := RemoveLease(b.deadlines, Lease(e.deadline, id)),
       inFlight := b.inFlight - {id},
       settled := b.settled[e.token := Outcome(id, e.owner, kind)])
  }

  function Finish(c: Config, b: Broker, id: Id, kind: Settlement, t: FinishTimes): Broker
    requires id in b.inFlight
  {
    var m := b.inFlight[id].message;
    Prune(c, Record(Route(b, m, kind, m.Expired(t.expiryAt)), id, kind, t.recordAt), 1, t.pruneAt)
      .(clock := t.pruneAt)
  }

  // ----- settling -----

  datatype SettleTimes = SettleTimes(lookupAt: int, deadlineAt: int, finish: FinishTimes)
  {
    predicate From(start: int) {
      start <= lookupAt <= deadlineAt && finish.From(deadlineAt)
    }
  }

  predicate TokenChar(ch: char) {
    ('a' <= ch <= 'z') || ('A' <= ch <= 'Z') || ('0' <= ch <= '9') || ch == '-'
  }

  predicate TokenSyntax(token: Token) {
    0 < |token.text| <= 128 && forall k :: 0 <= k < |token.text| ==> TokenChar(token.text[k])
  }

  predicate Outdated(c: Config, x: Completion, now: int) {
    now - x.time >= c.retention
  }

  function Forget(b: Broker, token: Token): Broker
    requires token in b.completed
  {
    b.(completions := RemoveCompletion(b.completions, b.completed[token]), completed := b.completed - {token})
  }

  /** The answer for an attempt that is not in the history: it must be live, owned and in time. */
  function SettleLive(c: Config, b: Broker, owner: Id, id: Id, token: Token, kind: Settlement,
                      t: SettleTimes): (Broker, Status)
  {
    if id !in b.inFlight then (b, NotFound)
    else if b.inFlight[id].owner != owner then (b, PermissionDenied)
    else if b.inFlight[id].token != token then (b, FailedPrecondition)
    else if t.deadlineAt >= b.inFlight[id].deadline then (Finish(c, b, id, LeaseExpired, t.finish), FailedPrecondition)
    else (Finish(c, b, id, kind, t.finish), Ok)
  }

  function Settle(c: Config, b: Broker, owner: Id, id: Id, token: Token, kind: Settlement,
                  t: SettleTimes): (Broker, Status)
  {
    if owner !in b.consumers then (b, PermissionDenied)
    else if !TokenSyntax(token) then (b, InvalidArgument)
    else if token in b.completed then
      var x := b.completed[token];
      if Outdated(c, x, t.lookupAt) then SettleLive(c, Forget(b, token), owner, id, token, kind, t)
      else if x.id != id then SettleLive(c, b, owner, id, token, kind, t)
      else if x.owner != owner then (b, PermissionDenied)
      else (b, if x.kind == kind then Ok else FailedPrecondition)
    else SettleLive(c, b, owner, id, token, kind, t)
  }

  // ----- maintenance -----

  predicate LeaseDue(b: Broker, now: int) {
    b.deadlines != [] && b.deadlines[0].at <= now
  }

  /** Readings for successive finishes, each no earlier than the one before. */
  predicate InOrder(ts: seq<FinishTimes>, start: int) {
    ts == [] || (ts[0].From(start) && InOrder(ts[1..], ts[0].pruneAt))
  }

  /** Reclaim due leases, earliest first, within the readings supplied (one per reclaim). The index
      names only attempts in flight, so the last test of the guard never fails. */
  function Reclaim(c: Config, b: Broker, now: int, ts: seq<FinishTimes>): Broker
    decreases |ts|
  {
    if ts != [] && LeaseDue(b, now) && b.deadlines[0].id in b.inFlight
    then Reclaim(c, Finish(c, b, b.deadlines[0].id, LeaseExpired, ts[0]), now, ts[1..])
    else b
  }

  /** `ts` has one entry per unit of the batch budget. */
  function Maintain(c: Config, b: Broker, now: int, ts: seq<FinishTimes>, pruneAt: int): Broker {
    Prune(c, Reclaim(c, b, now, ts), c.batch, pruneAt).(clock := pruneAt)
  }

  // ----- accepting and pulling -----

  function Submit(c: Config, b: Broker, id: Id, ttl: Option<nat>, at: int): Broker {
    var m := Message(id, at, if ttl.Some? then ttl.value else c.defaultTtl, 0, c.maxRetries, 0);
    b.(queue := b.queue[id := m], accepted := b.accepted + {id})
  }

  function SweptOut(b: Broker, ids: set<Id>): map<Id, Transit>
    requires ids <= b.queue.Keys
  {
    map id | id in ids :: Swept(b.queue[id])
  }

  function Sweep(b: Broker, ids: set<Id>): Broker
    requires ids <= b.queue.Keys
  {
    b.(queue := b.queue - ids, transit := b.transit + SweptOut(b, ids))
  }

  /** A swept message, or a pulled one found expired, reaches the dead letters. */
  function DeadLetterExpired(b: Broker, id: Id): Broker
    requires id in b.transit
  {
    b.(transit := b.transit - {id}, dlq := b.dlq + [DeadLetter(b.transit[id].message, TtlExpired)])
  }

  function Dequeue(b: Broker, id: Id): Broker
    requires id in b.queue
  {
    b.(queue := b.queue - {id}, transit := b.transit[id := Pulled(b.queue[id])])
  }

  /** An uncommitted pull is undone. */
  function RequeueFront(b: Broker, id: Id): Broker
    requires id in b.transit
  {
    b.(transit := b.transit - {id}, queue := b.queue[id := b.transit[id].message])
  }

  /** Count the delivery and start its lease. */
  function Launch(c: Config, b: Broker, id: Id, owner: Id, token: Token, at: int): Broker
    requires id in b.transit
  {
    var m := b.transit[id].message;
    var delivered := m.(deliveryCount := m.deliveryCount + 1);
    b.(transit := b.transit - {id},
       inFlight := b.inFlight[id := Attempt(delivered, owner, token, at + c.lease, delivered.deliveryCount)],
       deadlines := InsertLease(b.deadlines, Lease(at + c.lease, id)),
       issued := b.issued + {token}, installs := b.installs + [id], clock := at)
  }

  /** The locked end of a pull. `fails` stands for any exception while installing. */
  function Install(c: Config, b: Broker, id: Id, owner: Id, token: Token, cancelled: bool, fails: bool,
                   at: int): (Broker, Status)
    requires id in b.transit
  {
    var m := b.transit[id].message;
    if cancelled then (RequeueFront(b, id), Cancelled)
    else if m.deliveryCount == MAX_DELIVERIES then (RequeueFront(b, id), ResourceExhausted)
    else if id in b.inFlight || fails then (RequeueFront(b, id), Internal)
    else (Launch(c, b, id, owner, token, at), Ok)
  }

  // ----- steps -----

  datatype Step =
    | Registers(consumer: Id)
    | Submits(id: Id, ttl: Option<nat>, at: int)
    | Sweeps(ids: set<Id>, at: int)
    | DeadLetters(id: Id, at: int)
    | Dequeues(id: Id)
    | Installs(id: Id, owner: Id, token: Token, cancelled: bool, fails: bool, at: int)
    | Settles(owner: Id, id: Id, token: Token, kind: Settlement, readings: SettleTimes)
    | Maintains(now: int, times: seq<FinishTimes>, pruneAt: int)

  /** What the environment guarantees: ids and tokens are fresh when generated, readings taken under
      the settlement lock do not go back, a sweep takes expired messages only, and threads act on
      what they hold. Submissions, sweeps and dead letters read the clock outside that lock. */
  predicate Can(c: Config, b: Broker, s: Step) {
    match s
    case Registers(_) => true
    case Submits(id, _, _) => id !in b.accepted
    case Sweeps(ids, at) =>
      ids <= b.queue.Keys && |ids| <= c.batch && forall id :: id in ids ==> b.queue[id].Expired(at)
    case DeadLetters(id, at) =>
      id in b.transit && (b.transit[id].Pulled? ==> b.transit[id].message.Expired(at))
    case Dequeues(id) => id in b.queue
    case Installs(id, _, token, _, _, at) =>
      id in b.transit && b.transit[id].Pulled? && token !in b.issued && b.clock <= at
    case Settles(_, _, _, kind, t) => kind != LeaseExpired && t.From(b.clock)
    case Maintains(now, ts, pruneAt) =>
      b.clock <= now && |ts| == c.batch && InOrder(ts, now) && LastReading(ts, now) <= pruneAt
  }

  function LastReading(ts: seq<FinishTimes>, start: int): int {
    if ts == [] then start else ts[|ts| - 1].pruneAt
  }

  function Do(c: Config, b: Broker, s: Step): Broker
    requires Can(c, b, s)
  {
    match s
    case Registers(consumer) => b.(consumers := b.consumers + {consumer})
    case Submits(id, ttl, at) => Submit(c, b, id, ttl, at)
    case Sweeps(ids, _) => Sweep(b, ids)
    case DeadLetters(id, _) => DeadLetterExpired(b, id)
    case Dequeues(id) => Dequeue(b, id)
    case Installs(id, owner, token, cancelled, fails, at) => Install(c, b, id, owner, token, cancelled, fails, at).0
    case Settles(owner, id, token, kind, t) => Settle(c, b, owner, id, token, kind, t).0
    case Maintains(now, ts, pruneAt) => Maintain(c, b, now, ts, pruneAt)
  }
}
