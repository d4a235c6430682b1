/** What every step of the delivery protocol keeps. */
module DeliveryInvariants {
  import opened Options
  import opened DeliveryModel

  // ----- each accepted message is in exactly one place -----

  ghost function Here(b: bool): nat {
    if b then 1 else 0
  }

  ghost function DeadCount(q: seq<DeadLetter>, id: Id): nat {
    if q == [] then 0 else DeadCount(q[..|q| - 1], id) + Here(q[|q| - 1].message.id == id)
  }

  ghost function Places(b: Broker, id: Id): nat {
    Here(id in b.queue) + Here(id in b.transit) + Here(id in b.inFlight) + DeadCount(b.dlq, id) + Here(id in b.acked)
  }

  ghost predicate Conserved(b: Broker) {
    && (forall id: Id :: Places(b, id) == Here(id in b.accepted))
    && (forall id :: id in b.queue ==> b.queue[id].id == id)
    && (forall id :: id in b.transit ==> b.transit[id].message.id == id)
    && (forall id :: id in b.inFlight ==> b.inFlight[id].message.id == id)
  }

  lemma {:induction false} DeadPush(q: seq<DeadLetter>, x: DeadLetter, id: Id)
    ensures DeadCount(q + [x], id) == DeadCount(q, id) + Here(x.message.id == id)
  {
    assert (q + [x])[..|q|] == q;
  }

  lemma SubmitConserved(c: Config, b: Broker, id: Id, ttl: Option<nat>, at: int)
    requires Conserved(b) && id !in b.accepted
    ensures Conserved(Submit(c, b, id, ttl, at))
  {
    assert Places(b, id) == 0;
    var d := Submit(c, b, id, ttl, at);
    forall x: Id
      ensures Places(d, x) == Places(b, x) + Here(x == id)
    {
      QueuePlaces(b, id, d.queue[id], x);
    }
  }

  lemma SweepConserved(b: Broker, ids: set<Id>)
    requires Conserved(b) && ids <= b.queue.Keys
    ensures Conserved(Sweep(b, ids))
  {
    var d := Sweep(b, ids);
    forall x: Id
      ensures Places(d, x) == Places(b, x)
    {
      assert Places(b, x) <= 1;
    }
  }

  lemma DeadLetterConserved(b: Broker, id: Id)
    requires Conserved(b) && id in b.transit
    ensures Conserved(DeadLetterExpired(b, id))
  {
    var d := DeadLetterExpired(b, id);
    forall x: Id
      ensures Places(d, x) == Places(b, x)
    {
      DeadPush(b.dlq, DeadLetter(b.transit[id].message, TtlExpired), x);
    }
  }

  lemma DequeueConserved(b: Broker, id: Id)
    requires Conserved(b) && id in b.queue
    ensures Conserved(Dequeue(b, id))
  {
    assert Places(b, id) <= 1;
    forall x: Id
      ensures Places(Dequeue(b, id), x) == Places(b, x)
    {
    }
  }

  lemma RequeueConserved(b: Broker, id: Id)
    requires Conserved(b) && id in b.transit
    ensures Conserved(RequeueFront(b, id))
  {
    assert Places(b, id) <= 1;
    forall x: Id
      ensures Places(RequeueFront(b, id), x) == Places(b, x)
    {
    }
  }

  /** An undone pull puts the broker back as it was before the dequeue. */
  lemma RequeueUndoesDequeue(b: Broker, id: Id)
    requires Conserved(b) && id in b.queue
    ensures RequeueFront(Dequeue(b, id), id) == b
  {
    assert Places(b, id) <= 1;
    assert RequeueFront(Dequeue(b, id), id).queue == b.queue;
    assert RequeueFront(Dequeue(b, id), id).transit == b.transit;
  }

  lemma InstallConserved(c: Config, b: Broker, id: Id, owner: Id, token: Token, cancelled: bool,
                         fails: bool, at: int)
    requires Conserved(b) && id in b.transit
    ensures Conserved(Install(c, b, id, owner, token, cancelled, fails, at).0)
  {
    var (d, status) := Install(c, b, id, owner, token, cancelled, fails, at);
    if status == Ok {
      assert Places(b, id) <= 1;
      forall x: Id
        ensures Places(d, x) == Places(b, x)
      {
      }
    } else {
      RequeueConserved(b, id);
    }
  }

  /** The broker after a finish, before pruning. */
  ghost function Finished(b: Broker, id: Id, kind: Settlement, expired: bool, at: int): Broker
    requires id in b.inFlight
  {
    Record(Route(b, b.inFlight[id].message, kind, expired), id, kind, at)
  }

  lemma RoutePlaces(b: Broker, m: Message, kind: Settlement, expired: bool, x: Id)
    requires m.id !in b.queue && m.id !in b.acked
    ensures Places(Route(b, m, kind, expired), x) == Places(b, x) + Here(x == m.id)
  {
    if expired {
      DeadPlaces(b, DeadLetter(m, TtlExpired), x);
    } else if kind == Ack {
      AckedPlaces(b, m, x);
    } else if m.retryCount + 1 >= m.maxRetries {
      MaxedPlaces(b, m, kind, x);
    } else {
      RetriedPlaces(b, m, kind, x);
    }
  }

  lemma MaxedPlaces(b: Broker, m: Message, kind: Settlement, x: Id)
    requires kind != Ack && m.retryCount + 1 >= m.maxRetries
    ensures Places(Route(b, m, kind, false), x) == Places(b, x) + Here(x == m.id)
  {
    DeadPlaces(b, DeadLetter(m.(retryCount := m.retryCount + 1), MaxRetriesExceeded), x);
  }

  lemma RetriedPlaces(b: Broker, m: Message, kind: Settlement, x: Id)
    requires m.id !in b.queue && kind != Ack && m.retryCount + 1 < m.maxRetries
    ensures Places(Route(b, m, kind, false), x) == Places(b, x) + Here(x == m.id)
  {
    QueuePlaces(b, m.id, m.(retryCount := m.retryCount + 1), x);
  }

  lemma DeadPlaces(b: Broker, d: DeadLetter, x: Id)
    ensures Places(b.(dlq := b.dlq + [d]), x) == Places(b, x) + Here(x == d.message.id)
  {
    DeadPush(b.dlq, d, x);
  }

  lemma AckedPlaces(b: Broker, m: Message, x: Id)
    requires m.id !in b.acked
    ensures Places(b.(acked := b.acked[m.id := m]), x) == Places(b, x) + Here(x == m.id)
  {
  }

  lemma QueuePlaces(b: Broker, id: Id, m: Message, x: Id)
    requires id !in b.queue
    ensures Places(b.(queue := b.queue[id := m]), x) == Places(b, x) + Here(x == id)
  {
  }

  lemma RecordPlaces(b: Broker, id: Id, kind: Settlement, at: int, x: Id)
    requires id in b.inFlight
    ensures Places(Record(b, id, kind, at), x) == Places(b, x) - Here(x == id)
  {
  }

  /** Finishing moves the message out of flight and to exactly one other place. */
  lemma FinishPlaces(b: Broker, id: Id, kind: Settlement, expired: bool, at: int)
    requires Conserved(b) && id in b.inFlight
    ensures Conserved(Finished(b, id, kind, expired, at))
  {
    var m := b.inFlight[id].message;
    var r := Route(b, m, kind, expired);
    assert Places(b, id) <= 1;
    forall x: Id
      ensures Places(Finished(b, id, kind, expired, at), x) == Places(b, x)
    {
      RoutePlaces(b, m, kind, expired, x);
      RecordPlaces(r, id, kind, at, x);
    }
    assert forall x :: x in r.queue ==> r.queue[x].id == x;
  }

  /** Two brokers that differ at most in the history cache and the clock. */
  ghost predicate SameStores(b: Broker, d: Broker) {
    d == b.(completions := d.completions, completed := d.completed, clock := d.clock)
  }

  lemma {:induction false} PruneStores(c: Config, b: Broker, budget: nat, now: int)
    ensures SameStores(b, Prune(c, b, budget, now))
    ensures Prune(c, b, budget, now).clock == b.clock
    decreases budget
  {
    if budget > 0 && Stale(c, b, now) {
      PruneStores(c, DropOldest(b), budget - 1, now);
    }
  }

  lemma SameConserved(b: Broker, d: Broker)
    requires Conserved(b) && SameStores(b, d)
    ensures Conserved(d)
  {
    assert forall x: Id :: Places(d, x) == Places(b, x);
  }

  // ----- delivery budget -----

  /** A message that is not being delivered: every delivery so far was a retry. */
  ghost predicate Resting(c: Config, installs: seq<Id>, m: Message) {
    m.maxRetries == c.maxRetries && m.deliveryCount == m.retryCount < c.maxRetries &&
    multiset(installs)[m.id] == m.deliveryCount
  }

  ghost predicate Delivering(c: Config, installs: seq<Id>, e: Attempt) {
    && e.message.maxRetries == c.maxRetries
    && e.attemptId == e.message.deliveryCount == e.message.retryCount + 1 <= c.maxRetries
    && multiset(installs)[e.message.id] == e.attemptId
  }

  ghost predicate Ended(c: Config, installs: seq<Id>, m: Message) {
    m.deliveryCount <= c.maxRetries && multiset(installs)[m.id] == m.deliveryCount
  }

  ghost predicate Buried(c: Config, installs: seq<Id>, x: DeadLetter) {
    Ended(c, installs, x.message) &&
    (x.reason == MaxRetriesExceeded ==> x.message.deliveryCount == x.message.retryCount == c.maxRetries)
  }

  ghost predicate QueueRests(c: Config, installs: seq<Id>, queue: map<Id, Message>) {
    forall id :: id in queue ==> Resting(c, installs, queue[id])
  }

  ghost predicate TransitRests(c: Config, installs: seq<Id>, transit: map<Id, Transit>) {
    forall id :: id in transit ==> Resting(c, installs, transit[id].message)
  }

  ghost predicate FlightDelivers(c: Config, installs: seq<Id>, inFlight: map<Id, Attempt>) {
    forall id :: id in inFlight ==> Delivering(c, installs, inFlight[id])
  }

  ghost predicate AllBuried(c: Config, installs: seq<Id>, dlq: seq<DeadLetter>) {
    forall k :: 0 <= k < |dlq| ==> Buried(c, installs, dlq[k])
  }

  ghost predicate AckedEnded(c: Config, installs: seq<Id>, acked: map<Id, Message>) {
    forall id :: id in acked ==> acked[id].id == id && Ended(c, installs, acked[id])
  }

  ghost predicate InstallsAccepted(installs: seq<Id>, accepted: set<Id>) {
    forall id: Id :: id !in accepted ==> multiset(installs)[id] == 0
  }

  ghost predicate Budgeted(c: Config, b: Broker) {
    && QueueRests(c, b.installs, b.queue)
    && TransitRests(c, b.installs, b.transit)
    && FlightDelivers(c, b.installs, b.inFlight)
    && AllBuried(c, b.installs, b.dlq)
    && AckedEnded(c, b.installs, b.acked)
    && InstallsAccepted(b.installs, b.accepted)
  }

  lemma {:induction false} DeadCounted(q: seq<DeadLetter>, k: nat)
    requires k < |q|
    ensures DeadCount(q, q[k].message.id) >= 1
  {
    if k < |q| - 1 {
      DeadCounted(q[..|q| - 1], k);
    }
  }

  /** One more install of a message changes the count of no other message. */
  lemma InstallCounts(c: Config, b: Broker, id: Id)
    requires Conserved(b) && Budgeted(c, b) && id in b.transit
    ensures var installs := b.installs + [id];
            && QueueRests(c, installs, b.queue)
            && TransitRests(c, installs, b.transit - {id})
            && FlightDelivers(c, installs, b.inFlight)
            && AllBuried(c, installs, b.dlq)
            && AckedEnded(c, installs, b.acked)
            && InstallsAccepted(installs, b.accepted)
            && multiset(installs)[id] == multiset(b.installs)[id] + 1
  {
    var installs := b.installs + [id];
    assert Places(b, id) == 1;
    assert forall x :: x != id ==> multiset(installs)[x] == multiset(b.installs)[x];
    forall k | 0 <= k < |b.dlq|
      ensures Buried(c, installs, b.dlq[k])
    {
      DeadCounted(b.dlq, k);
    }
  }

  lemma InstallBudgeted(c: Config, b: Broker, id: Id, owner: Id, token: Token, at: int)
    requires c.Valid() && Conserved(b) && Budgeted(c, b) && id in b.transit
    ensures Install(c, b, id, owner, token, false, false, at).1 == Ok
    ensures Budgeted(c, Install(c, b, id, owner, token, false, false, at).0)
  {
    assert Places(b, id) == 1;
    assert Resting(c, b.installs, b.transit[id].message);
    InstallCounts(c, b, id);
  }

  lemma DeadBudgeted(c: Config, b: Broker, x: DeadLetter)
    requires Budgeted(c, b) && Buried(c, b.installs, x)
    ensures Budgeted(c, b.(dlq := b.dlq + [x]))
  {
  }

  lemma AckBudgeted(c: Config, b: Broker, m: Message)
    requires Budgeted(c, b) && Ended(c, b.installs, m)
    ensures Budgeted(c, b.(acked := b.acked[m.id := m]))
  {
  }

  lemma RetryBudgeted(c: Config, b: Broker, id: Id, m: Message)
    requires Budgeted(c, b) && Resting(c, b.installs, m)
    ensures Budgeted(c, b.(queue := b.queue[id := m]))
  {
  }

  lemma ExpiredBudgeted(c: Config, b: Broker, e: Attempt, kind: Settlement)
    requires Budgeted(c, b) && Delivering(c, b.installs, e)
    ensures Budgeted(c, Route(b, e.message, kind, true))
  {
    DeadBudgeted(c, b, DeadLetter(e.message, TtlExpired));
  }

  lemma MaxedBudgeted(c: Config, b: Broker, e: Attempt, kind: Settlement)
    requires Budgeted(c, b) && Delivering(c, b.installs, e) && kind != Ack
    requires e.message.retryCount + 1 >= e.message.maxRetries
    ensures Budgeted(c, Route(b, e.message, kind, false))
  {
    DeadBudgeted(c, b, DeadLetter(e.message.(retryCount := e.message.retryCount + 1), MaxRetriesExceeded));
  }

  lemma RetriedBudgeted(c: Config, b: Broker, e: Attempt, kind: Settlement)
    requires Budgeted(c, b) && Delivering(c, b.installs, e) && kind != Ack
    requires e.message.retryCount + 1 < e.message.maxRetries
    ensures Budgeted(c, Route(b, e.message, kind, false))
  {
    RetryBudgeted(c, b, e.message.id, e.message.(retryCount := e.message.retryCount + 1));
  }

  lemma RouteBudgeted(c: Config, b: Broker, e: Attempt, kind: Settlement, expired: bool)
    requires Budgeted(c, b) && Delivering(c, b.installs, e)
    ensures Budgeted(c, Route(b, e.message, kind, expired))
  {
    if expired {
      ExpiredBudgeted(c, b, e, kind);
    } else if kind == Ack {
      AckBudgeted(c, b, e.message);
    } else if e.message.retryCount + 1 >= e.message.maxRetries {
      MaxedBudgeted(c, b, e, kind);
    } else {
      RetriedBudgeted(c, b, e, kind);
    }
  }

  lemma FinishBudgeted(c: Config, b: Broker, id: Id, kind: Settlement, expired: bool, at: int)
    requires Budgeted(c, b) && id in b.inFlight
    ensures Budgeted(c, Finished(b, id, kind, expired, at))
  {
    RouteBudgeted(c, b, b.inFlight[id], kind, expired);
  }

  // ----- the deadline index -----

  /** Ordered by time, one lease per message. */
  ghost predicate Leases(ds: seq<Lease>) {
    ds == [] || ((forall x :: x in ds[1..] ==> ds[0].at <= x.at && ds[0].id != x.id) && Leases(ds[1..]))
  }

  ghost predicate LeaseIndex(inFlight: map<Id, Attempt>, ds: seq<Lease>) {
    && Leases(ds)
    && (forall x :: x in ds ==> x.id in inFlight && inFlight[x.id].deadline == x.at)
    && (forall id :: id in inFlight ==> Lease(inFlight[id].deadline, id) in ds)
  }

  lemma {:induction false} InsertLeaseOrdered(ds: seq<Lease>, l: Lease)
    requires Leases(ds) && (forall x :: x in ds ==> x.id != l.id)
    ensures Leases(InsertLease(ds, l))
    ensures forall x :: x in InsertLease(ds, l) <==> x in ds || x == l
  {
    if ds == [] || l.at < ds[0].at {
      assert ([l] + ds)[1..] == ds;
      assert forall x :: x in ds ==> x == ds[0] || x in ds[1..];
    } else {
      InsertLeaseOrdered(ds[1..], l);
      var r := InsertLease(ds, l);
      assert r[1..] == InsertLease(ds[1..], l);
      assert forall x :: x in r <==> x == ds[0] || x in r[1..];
      assert forall x :: x in ds <==> x == ds[0] || x in ds[1..];
    }
  }

  lemma {:induction false} RemoveLeaseOrdered(ds: seq<Lease>, l: Lease)
    requires Leases(ds) && l in ds
    ensures Leases(RemoveLease(ds, l))
    ensures forall x :: x in RemoveLease(ds, l) <==> x in ds && x.id != l.id
  {
    assert forall x :: x in ds <==> x == ds[0] || x in ds[1..];
    if ds[0] != l {
      RemoveLeaseOrdered(ds[1..], l);
      var r := RemoveLease(ds, l);
      assert r[1..] == RemoveLease(ds[1..], l);
      assert forall x :: x in r <==> x == ds[0] || x in r[1..];
    }
  }

  lemma {:induction false} InstallLeased(inFlight: map<Id, Attempt>, ds: seq<Lease>, id: Id, e: Attempt)
    requires LeaseIndex(inFlight, ds) && id !in inFlight
    ensures LeaseIndex(inFlight[id := e], InsertLease(ds, Lease(e.deadline, id)))
  {
    InsertLeaseOrdered(ds, Lease(e.deadline, id));
  }

  lemma {:induction false} RemoveLeased(inFlight: map<Id, Attempt>, ds: seq<Lease>, id: Id)
    requires LeaseIndex(inFlight, ds) && id in inFlight
    ensures LeaseIndex(inFlight - {id}, RemoveLease(ds, Lease(inFlight[id].deadline, id)))
  {
    RemoveLeaseOrdered(ds, Lease(inFlight[id].deadline, id));
  }

  // ----- the completion history -----

  /** Ordered by time, one record per token. */
  ghost predicate Records(cs: seq<Completion>) {
    cs == [] || ((forall x :: x in cs[1..] ==> cs[0].time <= x.time && cs[0].token != x.token) && Records(cs[1..]))
  }

  ghost predicate HistoryIndex(cs: seq<Completion>, completed: map<Token, Completion>,
                               settled: map<Token, Outcome>, clock: int) {
    && Records(cs)
    && (forall x :: x in cs ==>
          && x.time <= clock
          && x.token in completed && completed[x.token] == x
          && x.token in settled && settled[x.token] == Outcome(x.id, x.owner, x.kind))
    && (forall t :: t in completed ==> completed[t] in cs && completed[t].token == t)
  }

  lemma {:induction false} AppendRecord(cs: seq<Completion>, x: Completion)
    requires Records(cs) && forall y :: y in cs ==> y.time <= x.time && y.token != x.token
    ensures Records(cs + [x])
  {
    if cs != [] {
      AppendRecord(cs[1..], x);
      assert (cs + [x])[1..] == cs[1..] + [x];
    }
  }

  lemma {:induction false} RemoveRecord(cs: seq<Completion>, l: Completion)
    requires Records(cs) && l in cs
    ensures Records(RemoveCompletion(cs, l))
    ensures |RemoveCompletion(cs, l)| == |cs| - 1
    ensures forall x :: x in RemoveCompletion(cs, l) <==> x in cs && x.token != l.token
  {
    assert forall x :: x in cs <==> x == cs[0] || x in cs[1..];
    if cs[0] != l {
      RemoveRecord(cs[1..], l);
      var r := RemoveCompletion(cs, l);
      assert r[1..] == RemoveCompletion(cs[1..], l);
      assert forall x :: x in r <==> x == cs[0] || x in r[1..];
    }
  }

  lemma DropHistory(b: Broker, clock: int)
    requires HistoryIndex(b.completions, b.completed, b.settled, clock) && b.completions != []
    ensures var d := DropOldest(b);
            HistoryIndex(d.completions, d.completed, d.settled, clock)
  {
    var cs := b.completions;
    assert forall x :: x in cs <==> x == cs[0] || x in cs[1..];
  }

  lemma ForgetHistory(b: Broker, token: Token, clock: int)
    requires HistoryIndex(b.completions, b.completed, b.settled, clock) && token in b.completed
    ensures var d := Forget(b, token);
            && HistoryIndex(d.completions, d.completed, d.settled, clock)
            && |d.completions| == |b.completions| - 1
  {
    RemoveRecord(b.completions, b.completed[token]);
  }

  lemma {:induction false} PruneHistory(c: Config, b: Broker, budget: nat, now: int, clock: int)
    requires HistoryIndex(b.completions, b.completed, b.settled, clock)
    ensures var d := Prune(c, b, budget, now);
            HistoryIndex(d.completions, d.completed, d.settled, clock)
    ensures var d := Prune(c, b, budget, now);
            && |d.completions| <= |b.completions|
            && (|b.completions| > c.cacheMax && budget > 0 ==> |d.completions| < |b.completions|)
    decreases budget
  {
    if budget > 0 && Stale(c, b, now) {
      DropHistory(b, clock);
      PruneHistory(c, DropOldest(b), budget - 1, now, clock);
    }
  }

  lemma RecordHistory(b: Broker, id: Id, kind: Settlement, at: int)
    requires HistoryIndex(b.completions, b.completed, b.settled, at)
    requires id in b.inFlight && b.inFlight[id].token !in b.settled
    ensures var d := Record(b, id, kind, at);
            HistoryIndex(d.completions, d.completed, d.settled, at)
  {
    var e := b.inFlight[id];
    var x := Completion(id, e.token, e.owner, kind, at);
    AppendRecord(b.completions, x);
    var d := Record(b, id, kind, at);
    assert forall y :: y in d.completions <==> y in b.completions || y == x;
    assert e.token !in b.completed;
  }

  // ----- tokens -----

  ghost predicate Fenced(inFlight: map<Id, Attempt>, issued: set<Token>, settled: map<Token, Outcome>) {
    && settled.Keys <= issued
    && (forall id :: id in inFlight ==> inFlight[id].token in issued && inFlight[id].token !in settled)
    && (forall i, j :: i in inFlight && j in inFlight && inFlight[i].token == inFlight[j].token ==> i == j)
  }

  // ----- all together -----

  ghost predicate Inv(c: Config, b: Broker) {
    && Core(c, b)
    && HistoryIndex(b.completions, b.completed, b.settled, b.clock)
    && |b.completions| <= c.cacheMax
  }

  lemma InitInv(c: Config)
    requires c.Valid()
    ensures Inv(c, Init())
  {
    assert forall x: Id :: Places(Init(), x) == 0;
  }

  lemma RecordFenced(b: Broker, id: Id, kind: Settlement, at: int)
    requires Fenced(b.inFlight, b.issued, b.settled) && LeaseIndex(b.inFlight, b.deadlines) && id in b.inFlight
    ensures var d := Record(b, id, kind, at);
            Fenced(d.inFlight, d.issued, d.settled) && LeaseIndex(d.inFlight, d.deadlines)
  {
    RemoveLeased(b.inFlight, b.deadlines, id);
  }

  lemma FinishRecorded(b: Broker, id: Id, kind: Settlement, expired: bool, at: int)
    requires HistoryIndex(b.completions, b.completed, b.settled, at)
    requires id in b.inFlight && b.inFlight[id].token !in b.settled
    ensures var d := Finished(b, id, kind, expired, at);
            && HistoryIndex(d.completions, d.completed, d.settled, at)
            && |d.completions| == |b.completions| + 1
  {
    RecordHistory(Route(b, b.inFlight[id].message, kind, expired), id, kind, at);
  }

  /** Everything but the completion cache. */
  ghost predicate Core(c: Config, b: Broker) {
    && c.Valid()
    && Conserved(b)
    && Budgeted(c, b)
    && LeaseIndex(b.inFlight, b.deadlines)
    && Fenced(b.inFlight, b.issued, b.settled)
  }

  lemma FinishCore(c: Config, b: Broker, id: Id, kind: Settlement, expired: bool, at: int)
    requires Core(c, b) && id in b.inFlight
    ensures Core(c, Finished(b, id, kind, expired, at))
  {
    FinishPlaces(b, id, kind, expired, at);
    FinishBudgeted(c, b, id, kind, expired, at);
    RecordFenced(Route(b, b.inFlight[id].message, kind, expired), id, kind, at);
  }

  /** Two brokers with the same stores, the second with a valid cache. */
  lemma SameInv(c: Config, b: Broker, d: Broker)
    requires Core(c, b) && SameStores(b, d)
    requires HistoryIndex(d.completions, d.completed, d.settled, d.clock) && |d.completions| <= c.cacheMax
    ensures Inv(c, d)
  {
    SameConserved(b, d);
  }

  /** Settlement appends one outcome and prunes one, so the cache stays within its capacity. */
  lemma FinishInv(c: Config, b: Broker, id: Id, kind: Settlement, t: FinishTimes)
    requires Inv(c, b) && id in b.inFlight && t.From(b.clock)
    ensures Inv(c, Finish(c, b, id, kind, t))
  {
    var expired := b.inFlight[id].message.Expired(t.expiryAt);
    var d := Finished(b, id, kind, expired, t.recordAt);
    FinishCore(c, b, id, kind, expired, t.recordAt);
    FinishRecorded(b, id, kind, expired, t.recordAt);
    PruneStores(c, d, 1, t.pruneAt);
    PruneHistory(c, d, 1, t.pruneAt, t.recordAt);
    SameInv(c, d, Finish(c, b, id, kind, t));
  }

  lemma ForgetInv(c: Config, b: Broker, token: Token)
    requires Inv(c, b) && token in b.completed
    ensures Inv(c, Forget(b, token))
  {
    ForgetHistory(b, token, b.clock);
    SameInv(c, b, Forget(b, token));
  }

  lemma {:induction false} PruneInv(c: Config, b: Broker, budget: nat, now: int, d: Broker)
    requires Inv(c, b) && b.clock <= d.clock && d == Prune(c, b, budget, now).(clock := d.clock)
    ensures Inv(c, d)
  {
    PruneStores(c, b, budget, now);
    PruneHistory(c, b, budget, now, b.clock);
    SameInv(c, b, d);
  }

  lemma SettleLiveInv(c: Config, b: Broker, owner: Id, id: Id, token: Token, kind: Settlement,
                      t: SettleTimes)
    requires Inv(c, b) && t.From(b.clock)
    ensures Inv(c, SettleLive(c, b, owner, id, token, kind, t).0)
  {
    if id in b.inFlight && b.inFlight[id].owner == owner && b.inFlight[id].token == token {
      if t.deadlineAt >= b.inFlight[id].deadline {
        FinishInv(c, b, id, LeaseExpired, t.finish);
      } else {
        FinishInv(c, b, id, kind, t.finish);
      }
    }
  }

  lemma SettleInv(c: Config, b: Broker, owner: Id, id: Id, token: Token, kind: Settlement, t: SettleTimes)
    requires Inv(c, b) && t.From(b.clock)
    ensures Inv(c, Settle(c, b, owner, id, token, kind, t).0)
  {
    SettleCases(c, b, owner, id, token, kind, t, Settle(c, b, owner, id, token, kind, t).0);
    SettleLiveInv(c, b, owner, id, token, kind, t);
    if token in b.completed {
      ForgetInv(c, b, token);
      SettleLiveInv(c, Forget(b, token), owner, id, token, kind, t);
    }
  }

  /** A settlement changes nothing, or settles live, or forgets an outdated outcome and settles live. */
  lemma SettleCases(c: Config, b: Broker, owner: Id, id: Id, token: Token, kind: Settlement, t: SettleTimes, d: Broker)
    requires d == Settle(c, b, owner, id, token, kind, t).0
    ensures || d == b
            || d == SettleLive(c, b, owner, id, token, kind, t).0
            || (token in b.completed && d == SettleLive(c, Forget(b, token), owner, id, token, kind, t).0)
  {
  }

  /** The earliest lease names an attempt in flight, so a due lease is always reclaimed. */
  lemma FirstLeaseLive(b: Broker)
    requires LeaseIndex(b.inFlight, b.deadlines) && b.deadlines != []
    ensures b.deadlines[0].id in b.inFlight
    ensures b.deadlines[0] == Lease(b.inFlight[b.deadlines[0].id].deadline, b.deadlines[0].id)
  {
    assert b.deadlines[0] in b.deadlines;
  }

  /** A due lease is reclaimed first. */
  lemma {:induction false} ReclaimStep(c: Config, b: Broker, now: int, ts: seq<FinishTimes>)
    requires LeaseIndex(b.inFlight, b.deadlines) && ts != [] && LeaseDue(b, now)
    ensures b.deadlines[0].id in b.inFlight
    ensures Reclaim(c, b, now, ts) == Reclaim(c, Finish(c, b, b.deadlines[0].id, LeaseExpired, ts[0]), now, ts[1..])
  {
    FirstLeaseLive(b);
  }

  lemma FinishLeased(c: Config, b: Broker, id: Id, kind: Settlement, t: FinishTimes)
    requires LeaseIndex(b.inFlight, b.deadlines) && id in b.inFlight
    ensures var d := Finish(c, b, id, kind, t);
            LeaseIndex(d.inFlight, d.deadlines)
  {
    RemoveLeased(b.inFlight, b.deadlines, id);
    PruneStores(c, Finished(b, id, kind, b.inFlight[id].message.Expired(t.expiryAt), t.recordAt), 1, t.pruneAt);
  }

  lemma {:induction false} ReclaimInv(c: Config, b: Broker, now: int, ts: seq<FinishTimes>, start: int)
    requires Inv(c, b) && b.clock <= start && InOrder(ts, start)
    ensures Inv(c, Reclaim(c, b, now, ts))
    decreases |ts|
  {
    if ts != [] && LeaseDue(b, now) {
      FirstLeaseLive(b);
      FinishInv(c, b, b.deadlines[0].id, LeaseExpired, ts[0]);
      ReclaimInv(c, Finish(c, b, b.deadlines[0].id, LeaseExpired, ts[0]), now, ts[1..], ts[0].pruneAt);
    }
  }

  lemma {:induction false} ReclaimClock(c: Config, b: Broker, now: int, ts: seq<FinishTimes>, start: int)
    requires b.clock <= start && InOrder(ts, start)
    ensures Reclaim(c, b, now, ts).clock <= LastReading(ts, start)
    decreases |ts|
  {
    if ts != [] && LeaseDue(b, now) && b.deadlines[0].id in b.inFlight {
      ReclaimClock(c, Finish(c, b, b.deadlines[0].id, LeaseExpired, ts[0]), now, ts[1..], ts[0].pruneAt);
    } else {
      OrderedLast(ts, start);
    }
  }

  lemma {:induction false} OrderedLast(ts: seq<FinishTimes>, start: int)
    requires InOrder(ts, start)
    ensures start <= LastReading(ts, start)
  {
    if |ts| > 1 {
      OrderedLast(ts[1..], ts[0].pruneAt);
    }
  }

  lemma {:induction false} MaintainInv(c: Config, b: Broker, now: int, ts: seq<FinishTimes>, pruneAt: int)
    requires Inv(c, b) && b.clock <= now && InOrder(ts, now) && LastReading(ts, now) <= pruneAt
    ensures Inv(c, Maintain(c, b, now, ts, pruneAt))
  {
    ReclaimInv(c, b, now, ts, now);
    ReclaimClock(c, b, now, ts, now);
    PruneInv(c, Reclaim(c, b, now, ts), c.batch, pruneAt, Maintain(c, b, now, ts, pruneAt));
  }

  lemma RequeueInv(c: Config, b: Broker, id: Id)
    requires Inv(c, b) && id in b.transit
    ensures Inv(c, RequeueFront(b, id))
  {
    RequeueConserved(b, id);
    assert Resting(c, b.installs, b.transit[id].message);
  }

  lemma InstallInv(c: Config, b: Broker, id: Id, owner: Id, token: Token, cancelled: bool, fails: bool,
                   at: int)
    requires Inv(c, b) && id in b.transit && token !in b.issued && b.clock <= at
    ensures Inv(c, Install(c, b, id, owner, token, cancelled, fails, at).0)
  {
    if cancelled || fails {
      RequeueInv(c, b, id);
    } else {
      InstalledInv(c, b, id, owner, token, at);
    }
  }

  lemma InstallFenced(c: Config, b: Broker, id: Id, owner: Id, token: Token, at: int)
    requires LeaseIndex(b.inFlight, b.deadlines) && Fenced(b.inFlight, b.issued, b.settled)
    requires id in b.transit && id !in b.inFlight && token !in b.issued
    requires Install(c, b, id, owner, token, false, false, at).1 == Ok
    ensures var d := Install(c, b, id, owner, token, false, false, at).0;
            LeaseIndex(d.inFlight, d.deadlines) && Fenced(d.inFlight, d.issued, d.settled)
  {
    var d := Install(c, b, id, owner, token, false, false, at).0;
    InstallLeased(b.inFlight, b.deadlines, id, d.inFlight[id]);
  }

  lemma InstalledInv(c: Config, b: Broker, id: Id, owner: Id, token: Token, at: int)
    requires Inv(c, b) && id in b.transit && token !in b.issued && b.clock <= at
    ensures Inv(c, Install(c, b, id, owner, token, false, false, at).0)
  {
    assert Places(b, id) == 1;
    InstallConserved(c, b, id, owner, token, false, false, at);
    InstallBudgeted(c, b, id, owner, token, at);
    InstallFenced(c, b, id, owner, token, at);
  }

  lemma RegisterInv(c: Config, b: Broker, d: Broker)
    requires Inv(c, b) && d == b.(consumers := d.consumers)
    ensures Inv(c, d)
  {
    assert forall x: Id :: Places(d, x) == Places(b, x);
  }

  lemma SubmitInv(c: Config, b: Broker, id: Id, ttl: Option<nat>, at: int)
    requires Inv(c, b) && id !in b.accepted
    ensures Inv(c, Submit(c, b, id, ttl, at))
  {
    SubmitConserved(c, b, id, ttl, at);
  }

  lemma SweepInv(c: Config, b: Broker, ids: set<Id>)
    requires Inv(c, b) && ids <= b.queue.Keys
    ensures Inv(c, Sweep(b, ids))
  {
    SweepConserved(b, ids);
  }

  lemma DeadLetterInv(c: Config, b: Broker, id: Id)
    requires Inv(c, b) && id in b.transit
    ensures Inv(c, DeadLetterExpired(b, id))
  {
    DeadLetterConserved(b, id);
    assert Resting(c, b.installs, b.transit[id].message);
  }

  lemma DequeueInv(c: Config, b: Broker, id: Id)
    requires Inv(c, b) && id in b.queue
    ensures Inv(c, Dequeue(b, id))
  {
    DequeueConserved(b, id);
    assert Resting(c, b.installs, b.queue[id]);
  }

  /** Every step keeps the whole invariant. */
  lemma DoInv(c: Config, b: Broker, s: Step)
    requires Inv(c, b) && Can(c, b, s)
    ensures Inv(c, Do(c, b, s))
  {
    match s
    case Registers(_) => RegisterInv(c, b, Do(c, b, s));
    case Submits(id, ttl, at) => SubmitInv(c, b, id, ttl, at);
    case Sweeps(ids, _) => SweepInv(c, b, ids);
    case DeadLetters(id, _) => DeadLetterInv(c, b, id);
    case Dequeues(id) => DequeueInv(c, b, id);
    case Installs(id, owner, token, cancelled, fails, at) =>
      InstallInv(c, b, id, owner, token, cancelled, fails, at);
    case Settles(owner, id, token, kind, t) => SettleInv(c, b, owner, id, token, kind, t);
    case Maintains(now, ts, pruneAt) => MaintainInv(c, b, now, ts, pruneAt);
  }
}
