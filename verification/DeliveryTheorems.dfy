/** What the delivery protocol promises over every interleaving of its steps. */
module DeliveryTheorems {
  import opened Options
  import opened DeliveryModel
  import opened DeliveryInvariants

  /** A run from an empty broker: its states and the step between each two. */
  ghost predicate IsRun(c: Config, bs: seq<Broker>, ss: seq<Step>) {
    && c.Valid()
    && |bs| == |ss| + 1
    && bs[0] == Init()
    && forall k :: 0 <= k < |ss| ==> Taken(c, bs, ss, k)
  }

  ghost predicate Taken(c: Config, bs: seq<Broker>, ss: seq<Step>, k: nat)
    requires k < |ss| && k + 1 < |bs|
  {
    Can(c, bs[k], ss[k]) && bs[k + 1] == Do(c, bs[k], ss[k])
  }

  lemma {:induction false} RunInv(c: Config, bs: seq<Broker>, ss: seq<Step>, k: nat)
    requires IsRun(c, bs, ss) && k < |bs|
    ensures Inv(c, bs[k])
  {
    if k == 0 {
      InitInv(c);
    } else {
      RunInv(c, bs, ss, k - 1);
      assert Taken(c, bs, ss, k - 1);
      DoInv(c, bs[k - 1], ss[k - 1]);
    }
  }

  /** How many of the first `k` steps submitted a message. */
  ghost function Submissions(ss: seq<Step>, k: nat): nat
    requires k <= |ss|
  {
    if k == 0 then 0 else Submissions(ss, k - 1) + Here(ss[k - 1].Submits?)
  }

  ghost predicate Installed(c: Config, b: Broker, s: Step)
    requires Can(c, b, s)
  {
    s.Installs? && Install(c, b, s.id, s.owner, s.token, s.cancelled, s.fails, s.at).1 == Ok
  }

  /** How many of the first `k` steps installed a delivery. */
  ghost function Deliveries(c: Config, bs: seq<Broker>, ss: seq<Step>, k: nat): nat
    requires IsRun(c, bs, ss) && k <= |ss|
  {
    if k == 0 then 0
    else
      assert Taken(c, bs, ss, k - 1);
      Deliveries(c, bs, ss, k - 1) + Here(Installed(c, bs[k - 1], ss[k - 1]))
  }

  // ----- conservation -----

  lemma {:induction false} ReclaimAccepts(c: Config, b: Broker, now: int, ts: seq<FinishTimes>)
    ensures Reclaim(c, b, now, ts).accepted == b.accepted
    ensures Reclaim(c, b, now, ts).installs == b.installs
    decreases |ts|
  {
    if ts != [] && LeaseDue(b, now) && b.deadlines[0].id in b.inFlight {
      FinishAccepts(c, b, b.deadlines[0].id, LeaseExpired, ts[0]);
      ReclaimAccepts(c, Finish(c, b, b.deadlines[0].id, LeaseExpired, ts[0]), now, ts[1..]);
    }
  }

  lemma FinishAccepts(c: Config, b: Broker, id: Id, kind: Settlement, t: FinishTimes)
    requires id in b.inFlight
    ensures Finish(c, b, id, kind, t).accepted == b.accepted
    ensures Finish(c, b, id, kind, t).installs == b.installs
  {
    var m := b.inFlight[id].message;
    PruneStores(c, Record(Route(b, m, kind, m.Expired(t.expiryAt)), id, kind, t.recordAt), 1, t.pruneAt);
  }

  lemma SettleAccepts(c: Config, b: Broker, owner: Id, id: Id, token: Token, kind: Settlement, t: SettleTimes)
    ensures Settle(c, b, owner, id, token, kind, t).0.accepted == b.accepted
    ensures Settle(c, b, owner, id, token, kind, t).0.installs == b.installs
  {
    SettleLiveAccepts(c, b, owner, id, token, kind, t);
    if token in b.completed {
      SettleLiveAccepts(c, Forget(b, token), owner, id, token, kind, t);
    }
  }

  lemma SettleLiveAccepts(c: Config, b: Broker, owner: Id, id: Id, token: Token, kind: Settlement, t: SettleTimes)
    ensures SettleLive(c, b, owner, id, token, kind, t).0.accepted == b.accepted
    ensures SettleLive(c, b, owner, id, token, kind, t).0.installs == b.installs
  {
    if id in b.inFlight {
      FinishAccepts(c, b, id, LeaseExpired, t.finish);
      FinishAccepts(c, b, id, kind, t.finish);
    }
  }

  /** A step accepts at most the message it submits and counts at most the delivery it installs. */
  lemma DoCounts(c: Config, b: Broker, s: Step)
    requires Can(c, b, s)
    ensures var d := Do(c, b, s);
            && d.accepted == (if s.Submits? then b.accepted + {s.id} else b.accepted)
            && d.installs == (if Installed(c, b, s) then b.installs + [s.id] else b.installs)
  {
    match s
    case Settles(owner, id, token, kind, t) => SettleAccepts(c, b, owner, id, token, kind, t);
    case Maintains(now, ts, pruneAt) =>
      ReclaimAccepts(c, b, now, ts);
      PruneStores(c, Reclaim(c, b, now, ts), c.batch, pruneAt);
    case Registers(_) =>
    case Submits(_, _, _) =>
    case Sweeps(_, _) =>
    case DeadLetters(_, _) =>
    case Dequeues(_) =>
    case Installs(_, _, _, _, _, _) =>
  }

  lemma {:induction false} RunCounts(c: Config, bs: seq<Broker>, ss: seq<Step>, k: nat)
    requires IsRun(c, bs, ss) && k <= |ss|
    ensures |bs[k].accepted| == Submissions(ss, k)
    ensures |bs[k].installs| == Deliveries(c, bs, ss, k)
  {
    if k > 0 {
      RunCounts(c, bs, ss, k - 1);
      assert Taken(c, bs, ss, k - 1);
      DoCounts(c, bs[k - 1], ss[k - 1]);
    }
  }

  /** Conservation: in every reachable state each message submitted so far is in exactly one of the
      queue, transit, flight, the dead letters and the acknowledged ones, and nothing else is. */
  lemma {:induction false} MessageConservation(c: Config, bs: seq<Broker>, ss: seq<Step>, k: nat)
    requires IsRun(c, bs, ss) && k <= |ss|
    ensures forall id: Id :: Places(bs[k], id) == Here(id in bs[k].accepted)
    ensures |bs[k].accepted| == Submissions(ss, k)
  {
    RunInv(c, bs, ss, k);
    RunCounts(c, bs, ss, k);
  }

  // ----- delivery budget -----

  ghost function Without(s: seq<Id>, x: Id): seq<Id> {
    if s == [] then [] else if s[0] == x then Without(s[1..], x) else [s[0]] + Without(s[1..], x)
  }

  lemma {:induction false} WithoutCounts(s: seq<Id>, x: Id, y: Id)
    ensures |Without(s, x)| + multiset(s)[x] == |s|
    ensures multiset(Without(s, x))[y] == if y == x then 0 else multiset(s)[y]
  {
    if s != [] {
      WithoutCounts(s[1..], x, y);
      assert s == [s[0]] + s[1..];
    }
  }

  ghost predicate CountsWithin(s: seq<Id>, a: set<Id>, k: nat) {
    forall x :: multiset(s)[x] <= if x in a then k else 0
  }

  lemma {:induction false} WithoutWithin(s: seq<Id>, a: set<Id>, k: nat, x: Id)
    requires CountsWithin(s, a, k)
    ensures CountsWithin(Without(s, x), a - {x}, k)
  {
    forall y
      ensures multiset(Without(s, x))[y] <= if y in a - {x} then k else 0
    {
      WithoutCounts(s, x, y);
      assert multiset(s)[y] <= if y in a then k else 0;
    }
  }

  lemma {:induction false} CountsBound(s: seq<Id>, a: set<Id>, k: nat)
    requires CountsWithin(s, a, k)
    ensures |s| <= |a| * k
    decreases |a|
  {
    assert s != [] ==> s[0] in multiset(s);
    if a != {} {
      var x :| x in a;
      assert multiset(s)[x] <= k;
      WithoutWithin(s, a, k, x);
      WithoutCounts(s, x, x);
      CountsBound(Without(s, x), a - {x}, k);
      assert |a| == |a - {x}| + 1;
      OneMore(|a - {x}|, k);
    }
  }

  lemma OneMore(n: int, k: int)
    ensures (n + 1) * k == n * k + k
  {
  }

  /** Every message was delivered at most `maxRetries` times. */
  lemma DeliveredWithin(c: Config, b: Broker, id: Id)
    requires Inv(c, b)
    ensures multiset(b.installs)[id] <= if id in b.accepted then c.maxRetries else 0
  {
    assert Places(b, id) == Here(id in b.accepted);
    if id in b.queue {
      assert Resting(c, b.installs, b.queue[id]);
    } else if id in b.transit {
      assert Resting(c, b.installs, b.transit[id].message);
    } else if id in b.inFlight {
      assert Delivering(c, b.installs, b.inFlight[id]);
    } else if id in b.acked {
      assert Ended(c, b.installs, b.acked[id]);
    } else if id in b.accepted {
      var k := DeadIndex(b.dlq, id);
      assert Buried(c, b.installs, b.dlq[k]);
    }
  }

  lemma DeadIndex(q: seq<DeadLetter>, id: Id) returns (k: nat)
    requires DeadCount(q, id) > 0
    ensures k < |q| && q[k].message.id == id
  {
    if q[|q| - 1].message.id == id {
      k := |q| - 1;
    } else {
      k := DeadIndex(q[..|q| - 1], id);
    }
  }

  /** Delivery budget: any run installs at most `maxRetries` deliveries per submission, and every
      message dead-lettered for its retries was delivered exactly `maxRetries` times. */
  lemma {:induction false} DeliveryBudget(c: Config, bs: seq<Broker>, ss: seq<Step>, k: nat)
    requires IsRun(c, bs, ss) && k <= |ss|
    ensures Deliveries(c, bs, ss, k) <= Submissions(ss, k) * c.maxRetries
    ensures Budgeted(c, bs[k])
    ensures forall j :: 0 <= j < |bs[k].dlq| && bs[k].dlq[j].reason == MaxRetriesExceeded ==>
              multiset(bs[k].installs)[bs[k].dlq[j].message.id] == c.maxRetries
  {
    RunInv(c, bs, ss, k);
    RunCounts(c, bs, ss, k);
    forall x
      ensures multiset(bs[k].installs)[x] <= if x in bs[k].accepted then c.maxRetries else 0
    {
      DeliveredWithin(c, bs[k], x);
    }
    CountsBound(bs[k].installs, bs[k].accepted, c.maxRetries);
    forall j | 0 <= j < |bs[k].dlq|
      ensures Buried(c, bs[k].installs, bs[k].dlq[j])
    {
    }
  }

  /** A pull that is neither cancelled nor failing always installs: the ordinal never runs out and
      the message is never already in flight. */
  lemma PullInstalls(c: Config, bs: seq<Broker>, ss: seq<Step>, k: nat, owner: Id, id: Id, token: Token,
                     cancelled: bool, fails: bool, at: int)
    requires IsRun(c, bs, ss) && k <= |ss| && id in bs[k].transit
    ensures Install(c, bs[k], id, owner, token, cancelled, fails, at).1 ==
            if cancelled then Cancelled else if fails then Internal else Ok
  {
    RunInv(c, bs, ss, k);
    assert Places(bs[k], id) <= 1;
    assert Resting(c, bs[k].installs, bs[k].transit[id].message);
  }

  // ----- attempt fencing -----

  /** The request names a live attempt of its owner before its deadline. */
  ghost predicate InTime(b: Broker, owner: Id, id: Id, token: Token, t: SettleTimes) {
    id in b.inFlight && b.inFlight[id].owner == owner && b.inFlight[id].token == token &&
    t.deadlineAt < b.inFlight[id].deadline
  }

  /** The request repeats an outcome that is still retained. */
  ghost predicate Replays(c: Config, b: Broker, owner: Id, id: Id, token: Token, kind: Settlement, t: SettleTimes) {
    && token in b.completed
    && !Outdated(c, b.completed[token], t.lookupAt)
    && token in b.settled && b.settled[token] == Outcome(id, owner, kind)
  }

  lemma FinishSettles(c: Config, b: Broker, id: Id, kind: Settlement, t: FinishTimes)
    requires id in b.inFlight
    ensures var e := b.inFlight[id];
            Finish(c, b, id, kind, t).settled == b.settled[e.token := Outcome(id, e.owner, kind)]
  {
    var m := b.inFlight[id].message;
    PruneStores(c, Record(Route(b, m, kind, m.Expired(t.expiryAt)), id, kind, t.recordAt), 1, t.pruneAt);
  }

  /** A settlement succeeds exactly when it names a live attempt in time or replays a retained one. */
  lemma SettleSucceeds(c: Config, b: Broker, owner: Id, id: Id, token: Token, kind: Settlement, t: SettleTimes)
    requires Inv(c, b)
    ensures Settle(c, b, owner, id, token, kind, t).1 == Ok <==>
            && owner in b.consumers && TokenSyntax(token)
            && (InTime(b, owner, id, token, t) || Replays(c, b, owner, id, token, kind, t))
  {
    if token in b.completed {
      assert b.completed[token] in b.completions;
    }
  }

  /** A settled token names no live attempt, so the live path leaves the broker as it is. */
  lemma SettledNotLive(c: Config, b: Broker, owner: Id, id: Id, token: Token, kind: Settlement, t: SettleTimes)
    requires Fenced(b.inFlight, b.issued, b.settled) && token in b.settled
    ensures SettleLive(c, b, owner, id, token, kind, t).0 == b
    ensures SettleLive(c, b, owner, id, token, kind, t).1 != Ok
  {
  }

  /** A token that already took effect changes no message, whatever the request. */
  lemma SettledTokenInert(c: Config, b: Broker, owner: Id, id: Id, token: Token, kind: Settlement, t: SettleTimes)
    requires Inv(c, b) && token in b.settled
    ensures SameStores(b, Settle(c, b, owner, id, token, kind, t).0)
    ensures Settle(c, b, owner, id, token, kind, t).1 == Ok ==>
              Settle(c, b, owner, id, token, kind, t).0 == b && b.settled[token] == Outcome(id, owner, kind)
  {
    SettledNotLive(c, b, owner, id, token, kind, t);
    if token in b.completed {
      assert b.completed[token] in b.completions;
      SettledNotLive(c, Forget(b, token), owner, id, token, kind, t);
    }
  }

  lemma CompletedSettled(c: Config, b: Broker, token: Token)
    requires Inv(c, b) && token in b.completed
    ensures token in b.settled
  {
    assert b.completed[token] in b.completions;
  }

  /** An Ack that takes effect acknowledges its message exactly when the message has not outlived its
      time to live; an expired one is answered the same and goes to the dead letters. */
  lemma AckedUnlessExpired(c: Config, b: Broker, owner: Id, id: Id, token: Token, t: SettleTimes)
    requires Inv(c, b) && token !in b.settled && Settle(c, b, owner, id, token, Ack, t).1 == Ok
    ensures id in b.inFlight
    ensures var d, m := Settle(c, b, owner, id, token, Ack, t).0, b.inFlight[id].message;
            && (id in d.acked <==> !m.Expired(t.finish.expiryAt))
            && (m.Expired(t.finish.expiryAt) <==> d.dlq == b.dlq + [DeadLetter(m, TtlExpired)])
  {
    SettleSucceeds(c, b, owner, id, token, Ack, t);
    if token in b.completed {
      CompletedSettled(c, b, token);
      assert false;
    }
    var m := b.inFlight[id].message;
    assert Places(b, id) <= 1;
    PruneStores(c, Finished(b, id, Ack, m.Expired(t.finish.expiryAt), t.finish.recordAt), 1, t.finish.pruneAt);
  }

  /** A submission, a pull and its Ack, all steps of one consumer. */
  ghost function PullAndAck(u: Id, id: Id, token: Token, t: SettleTimes): seq<Step> {
    [Registers(u), Submits(id, Some(1), 0), Dequeues(id), Installs(id, u, token, false, false, 0),
     Settles(u, id, token, Ack, t)]
  }

  /** The attempt a first pull leaves in flight. */
  ghost predicate InFlightSince(c: Config, b: Broker, u: Id, id: Id, token: Token) {
    && u in b.consumers && id in b.inFlight && b.settled == map[] && b.clock == 0
    && b.inFlight[id] == Attempt(Message(id, 0, 1, 0, c.maxRetries, 1), u, token, c.lease, 1)
  }

  lemma FirstPull(c: Config, u: Id, id: Id, token: Token, t: SettleTimes) returns (bs: seq<Broker>, ss: seq<Step>)
    requires c.Valid()
    ensures ss == PullAndAck(u, id, token, t)[..4]
    ensures IsRun(c, bs, ss) && InFlightSince(c, bs[4], u, id, token)
  {
    ss := PullAndAck(u, id, token, t)[..4];
    var b1 := Do(c, Init(), ss[0]);
    var b2 := Do(c, b1, ss[1]);
    var b3 := Do(c, b2, ss[2]);
    var b4 := Do(c, b3, ss[3]);
    bs := [Init(), b1, b2, b3, b4];
    assert Taken(c, bs, ss, 0) && Taken(c, bs, ss, 1) && Taken(c, bs, ss, 2) && Taken(c, bs, ss, 3);
  }

  lemma RunMore(c: Config, bs: seq<Broker>, ss: seq<Step>, s: Step)
    requires IsRun(c, bs, ss) && Can(c, bs[|ss|], s)
    ensures IsRun(c, bs + [Do(c, bs[|ss|], s)], ss + [s])
  {
    var ds, ts := bs + [Do(c, bs[|ss|], s)], ss + [s];
    forall k | 0 <= k < |ts|
      ensures Taken(c, ds, ts, k)
    {
      assert k < |ss| ==> Taken(c, bs, ss, k);
    }
  }

  lemma LateAck(c: Config, b: Broker, u: Id, id: Id, token: Token, t: SettleTimes)
    requires Inv(c, b) && InFlightSince(c, b, u, id, token) && TokenSyntax(token)
    requires t == SettleTimes(1, 1, FinishTimes(NANOS_PER_MILLI, NANOS_PER_MILLI, NANOS_PER_MILLI)) && 1 < c.lease
    ensures var (d, status) := Settle(c, b, u, id, token, Ack, t);
            status == Ok && id !in d.acked && d.dlq == b.dlq + [DeadLetter(b.inFlight[id].message, TtlExpired)]
  {
    SettleSucceeds(c, b, u, id, token, Ack, t);
    AckedUnlessExpired(c, b, u, id, token, t);
  }

  /** An Ack can be answered OK and its message not be acknowledged: a message with a time to live of
      one millisecond is pulled at once and acknowledged in time for its lease, but by the time the
      attempt is finished it has expired. */
  lemma {:induction false} ExpiredAckIsDeadLettered(c: Config, u: Id, id: Id, token: Token, t: SettleTimes)
      returns (bs: seq<Broker>, ss: seq<Step>)
    requires c.Valid() && TokenSyntax(token) && 1 < c.lease
    requires t == SettleTimes(1, 1, FinishTimes(NANOS_PER_MILLI, NANOS_PER_MILLI, NANOS_PER_MILLI))
    ensures IsRun(c, bs, ss) && ss == PullAndAck(u, id, token, t)
    ensures Settle(c, bs[4], u, id, token, Ack, t).1 == Ok && id !in bs[5].acked
    ensures bs[5].dlq == bs[4].dlq + [DeadLetter(Message(id, 0, 1, 0, c.maxRetries, 1), TtlExpired)]
  {
    bs, ss := FirstPull(c, u, id, token, t);
    RunInv(c, bs, ss, 4);
    LateAck(c, bs[4], u, id, token, t);
    var s := Settles(u, id, token, Ack, t);
    RunMore(c, bs, ss, s);
    bs, ss := bs + [Do(c, bs[4], s)], ss + [s];
    assert ss == PullAndAck(u, id, token, t);
  }

  /** A settlement that takes effect is recorded with its id, owner and kind. */
  lemma SettleRecords(c: Config, b: Broker, owner: Id, id: Id, token: Token, kind: Settlement, t: SettleTimes)
    requires Inv(c, b) && Settle(c, b, owner, id, token, kind, t).1 == Ok
    ensures var d := Settle(c, b, owner, id, token, kind, t).0;
            token in d.settled && d.settled[token] == Outcome(id, owner, kind)
  {
    SettleSucceeds(c, b, owner, id, token, kind, t);
    assert token in b.completed ==> b.completed[token] in b.completions;
    if token in b.settled {
      SettledTokenInert(c, b, owner, id, token, kind, t);
    } else {
      FinishSettles(c, b, id, kind, t.finish);
    }
  }

  lemma {:induction false} ReclaimSettles(c: Config, b: Broker, now: int, ts: seq<FinishTimes>, start: int,
                                          token: Token)
    requires Inv(c, b) && b.clock <= start && InOrder(ts, start) && token in b.settled
    ensures var d := Reclaim(c, b, now, ts);
            && token in d.settled && d.settled[token] == b.settled[token]
            && (token !in b.completed ==> token !in d.completed)
    decreases |ts|
  {
    if ts != [] && LeaseDue(b, now) {
      FirstLeaseLive(b);
      var id := b.deadlines[0].id;
      FinishInv(c, b, id, LeaseExpired, ts[0]);
      FinishKeepsSettled(c, b, id, LeaseExpired, ts[0], token);
      ReclaimSettles(c, Finish(c, b, id, LeaseExpired, ts[0]), now, ts[1..], ts[0].pruneAt, token);
    }
  }

  lemma {:induction false} PruneForgets(c: Config, b: Broker, budget: nat, now: int, token: Token)
    requires token !in b.completed
    ensures token !in Prune(c, b, budget, now).completed
    decreases budget
  {
    if budget > 0 && Stale(c, b, now) {
      PruneForgets(c, DropOldest(b), budget - 1, now, token);
    }
  }

  /** Finishing one attempt leaves the outcome of every settled token, and revives none in the cache. */
  lemma FinishKeepsSettled(c: Config, b: Broker, id: Id, kind: Settlement, t: FinishTimes, token: Token)
    requires Fenced(b.inFlight, b.issued, b.settled) && id in b.inFlight && token in b.settled
    ensures var d := Finish(c, b, id, kind, t);
            && token in d.settled && d.settled[token] == b.settled[token]
            && (token !in b.completed ==> token !in d.completed)
  {
    FinishSettles(c, b, id, kind, t);
    if token !in b.completed {
      var m := b.inFlight[id].message;
      PruneForgets(c, Record(Route(b, m, kind, m.Expired(t.expiryAt)), id, kind, t.recordAt), 1, t.pruneAt, token);
    }
  }

  lemma LiveKeepsSettled(c: Config, b: Broker, owner: Id, id: Id, other: Token, kind: Settlement, t: SettleTimes,
                         token: Token)
    requires Fenced(b.inFlight, b.issued, b.settled) && token in b.settled
    ensures var d := SettleLive(c, b, owner, id, other, kind, t).0;
            && token in d.settled && d.settled[token] == b.settled[token]
            && (token !in b.completed ==> token !in d.completed)
  {
    if id in b.inFlight {
      FinishKeepsSettled(c, b, id, LeaseExpired, t.finish, token);
      FinishKeepsSettled(c, b, id, kind, t.finish, token);
    }
  }

  lemma SettleKeepsSettled(c: Config, b: Broker, owner: Id, id: Id, other: Token, kind: Settlement, t: SettleTimes,
                           token: Token)
    requires Fenced(b.inFlight, b.issued, b.settled) && token in b.settled
    ensures var d := Settle(c, b, owner, id, other, kind, t).0;
            && token in d.settled && d.settled[token] == b.settled[token]
            && (token !in b.completed ==> token !in d.completed)
  {
    LiveKeepsSettled(c, b, owner, id, other, kind, t, token);
    if other in b.completed {
      LiveKeepsSettled(c, Forget(b, other), owner, id, other, kind, t, token);
    }
  }

  /** No step changes a token's outcome or brings an evicted one back. */
  lemma DoKeepsSettled(c: Config, b: Broker, s: Step, token: Token)
    requires Inv(c, b) && Can(c, b, s) && token in b.settled
    ensures var d := Do(c, b, s);
            && token in d.settled && d.settled[token] == b.settled[token]
            && (token !in b.completed ==> token !in d.completed)
  {
    match s
    case Settles(owner, id, other, kind, t) => SettleKeepsSettled(c, b, owner, id, other, kind, t, token);
    case Maintains(now, ts, pruneAt) =>
      ReclaimSettles(c, b, now, ts, now, token);
      PruneStores(c, Reclaim(c, b, now, ts), c.batch, pruneAt);
      if token !in b.completed {
        PruneForgets(c, Reclaim(c, b, now, ts), c.batch, pruneAt, token);
      }
    case Registers(_) =>
    case Submits(_, _, _) =>
    case Sweeps(_, _) =>
    case DeadLetters(_, _) =>
    case Dequeues(_) =>
    case Installs(_, _, _, _, _, _) =>
  }

  lemma {:induction false} RunKeepsSettled(c: Config, bs: seq<Broker>, ss: seq<Step>, i: nat, j: nat, token: Token)
    requires IsRun(c, bs, ss) && i <= j < |bs| && token in bs[i].settled
    ensures token in bs[j].settled && bs[j].settled[token] == bs[i].settled[token]
    ensures token !in bs[i].completed ==> token !in bs[j].completed
  {
    if i < j {
      RunKeepsSettled(c, bs, ss, i, j - 1, token);
      RunInv(c, bs, ss, j - 1);
      assert Taken(c, bs, ss, j - 1);
      DoKeepsSettled(c, bs[j - 1], ss[j - 1], token);
    }
  }

  ghost predicate Succeeds(c: Config, b: Broker, s: Step) {
    s.Settles? && Settle(c, b, s.owner, s.id, s.token, s.kind, s.readings).1 == Ok
  }

  lemma SuccessRecorded(c: Config, bs: seq<Broker>, ss: seq<Step>, i: nat)
    requires IsRun(c, bs, ss) && i < |ss| && Succeeds(c, bs[i], ss[i])
    ensures ss[i].token in bs[i + 1].settled
    ensures bs[i + 1].settled[ss[i].token] == Outcome(ss[i].id, ss[i].owner, ss[i].kind)
  {
    RunInv(c, bs, ss, i);
    assert Taken(c, bs, ss, i);
    SettleRecords(c, bs[i], ss[i].owner, ss[i].id, ss[i].token, ss[i].kind, ss[i].readings);
  }

  lemma SuccessRepeated(c: Config, bs: seq<Broker>, ss: seq<Step>, j: nat)
    requires IsRun(c, bs, ss) && j < |ss| && Succeeds(c, bs[j], ss[j]) && ss[j].token in bs[j].settled
    ensures bs[j + 1] == bs[j]
    ensures bs[j].settled[ss[j].token] == Outcome(ss[j].id, ss[j].owner, ss[j].kind)
  {
    RunInv(c, bs, ss, j);
    assert Taken(c, bs, ss, j);
    SettledTokenInert(c, bs[j], ss[j].owner, ss[j].id, ss[j].token, ss[j].kind, ss[j].readings);
  }

  /** Fencing over whole runs: if two settlements of one token both succeed, they named the same
      message, owner and kind, and the later one changed nothing. */
  lemma AttemptFencing(c: Config, bs: seq<Broker>, ss: seq<Step>, i: nat, j: nat)
    requires IsRun(c, bs, ss) && i < j < |ss|
    requires Succeeds(c, bs[i], ss[i]) && Succeeds(c, bs[j], ss[j]) && ss[i].token == ss[j].token
    ensures ss[i].id == ss[j].id && ss[i].owner == ss[j].owner && ss[i].kind == ss[j].kind
    ensures bs[j + 1] == bs[j]
  {
    SuccessRecorded(c, bs, ss, i);
    RunKeepsSettled(c, bs, ss, i + 1, j, ss[i].token);
    SuccessRepeated(c, bs, ss, j);
  }

  /** A token whose attempt ended by lease expiry never succeeds afterwards, whatever it asks for. */
  lemma ReclaimedNeverSucceeds(c: Config, bs: seq<Broker>, ss: seq<Step>, i: nat, j: nat, token: Token)
    requires IsRun(c, bs, ss) && i <= j < |ss|
    requires token in bs[i].settled && bs[i].settled[token].kind == LeaseExpired
    requires ss[j].Settles? && ss[j].token == token
    ensures !Succeeds(c, bs[j], ss[j])
  {
    RunKeepsSettled(c, bs, ss, i, j, token);
    RunInv(c, bs, ss, j);
    assert Taken(c, bs, ss, j);
    var u := ss[j];
    SettledTokenInert(c, bs[j], u.owner, u.id, u.token, u.kind, u.readings);
  }

  /** Once a settled token has left the cache, no later request with it succeeds. */
  lemma EvictedNeverSucceeds(c: Config, bs: seq<Broker>, ss: seq<Step>, i: nat, j: nat, token: Token)
    requires IsRun(c, bs, ss) && i <= j < |ss| && token in bs[i].settled && token !in bs[i].completed
    requires ss[j].Settles? && ss[j].token == token
    ensures !Succeeds(c, bs[j], ss[j])
  {
    RunKeepsSettled(c, bs, ss, i, j, token);
    RunInv(c, bs, ss, j);
    var u := ss[j];
    SettleSucceeds(c, bs[j], u.owner, u.id, u.token, u.kind, u.readings);
  }

  // ----- the indexes agree -----

  lemma {:induction false} LeaseCount(inFlight: map<Id, Attempt>, ds: seq<Lease>)
    requires LeaseIndex(inFlight, ds)
    ensures |ds| == |inFlight|
  {
    if ds == [] {
      assert inFlight.Keys == {};
      assert |inFlight| == |inFlight.Keys|;
    } else {
      var id := ds[0].id;
      assert ds[0] in ds;
      assert forall x :: x in ds <==> x == ds[0] || x in ds[1..];
      LeaseCount(inFlight - {id}, ds[1..]);
      assert (inFlight - {id}).Keys == inFlight.Keys - {id};
      assert |inFlight| == |inFlight.Keys|;
      assert |inFlight - {id}| == |(inFlight - {id}).Keys|;
    }
  }

  lemma {:induction false} RecordCount(cs: seq<Completion>, completed: map<Token, Completion>)
    requires Records(cs)
    requires forall x :: x in cs ==> x.token in completed && completed[x.token] == x
    requires forall t :: t in completed ==> completed[t] in cs && completed[t].token == t
    ensures |cs| == |completed|
  {
    if cs == [] {
      assert completed.Keys == {};
      assert |completed| == |completed.Keys|;
    } else {
      var t := cs[0].token;
      assert cs[0] in cs;
      assert forall x :: x in cs <==> x == cs[0] || x in cs[1..];
      RecordCount(cs[1..], completed - {t});
      assert (completed - {t}).Keys == completed.Keys - {t};
      assert |completed| == |completed.Keys|;
      assert |completed - {t}| == |(completed - {t}).Keys|;
    }
  }

  /** Index agreement: at every release of the lock the deadline index and the attempts in flight
      correspond one to one, so do the completion list and its table, and the list is within capacity. */
  lemma IndexAgreement(c: Config, bs: seq<Broker>, ss: seq<Step>, k: nat)
    requires IsRun(c, bs, ss) && k <= |ss|
    ensures LeaseIndex(bs[k].inFlight, bs[k].deadlines) && |bs[k].deadlines| == |bs[k].inFlight|
    ensures HistoryIndex(bs[k].completions, bs[k].completed, bs[k].settled, bs[k].clock)
    ensures |bs[k].completions| == |bs[k].completed| <= c.cacheMax
  {
    RunInv(c, bs, ss, k);
    LeaseCount(bs[k].inFlight, bs[k].deadlines);
    RecordCount(bs[k].completions, bs[k].completed);
  }

  // ----- bounded maintenance -----

  /** One round of reclaiming finishes the attempt of the earliest lease. */
  lemma ReclaimFirst(c: Config, b: Broker, now: int, ts: seq<FinishTimes>) returns (d: Broker)
    requires LeaseIndex(b.inFlight, b.deadlines) && LeaseDue(b, now) && ts != []
    ensures d.deadlines == b.deadlines[1..] && LeaseIndex(d.inFlight, d.deadlines)
    ensures Reclaim(c, b, now, ts) == Reclaim(c, d, now, ts[1..])
  {
    FirstLeaseLive(b);
    var id := b.deadlines[0].id;
    var m := b.inFlight[id].message;
    var t := ts[0];
    FinishLeased(c, b, id, LeaseExpired, t);
    PruneStores(c, Finished(b, id, LeaseExpired, m.Expired(t.expiryAt), t.recordAt), 1, t.pruneAt);
    d := Finish(c, b, id, LeaseExpired, t);
  }

  /** Reclaiming takes a prefix of the deadline index: every lease in it is due, and it stops short
      of the budget only at a lease that is not. */
  lemma {:induction false} ReclaimDeadlines(c: Config, b: Broker, now: int, ts: seq<FinishTimes>) returns (n: nat)
    requires LeaseIndex(b.inFlight, b.deadlines)
    ensures n <= |ts| && n <= |b.deadlines|
    ensures Reclaim(c, b, now, ts).deadlines == b.deadlines[n..]
    ensures EarliestDue(b.deadlines, n, now)
    ensures n < |ts| && n < |b.deadlines| ==> now < b.deadlines[n].at
    decreases |ts|
  {
    n := 0;
    if ts != [] && LeaseDue(b, now) {
      var d := ReclaimFirst(c, b, now, ts);
      var m := ReclaimDeadlines(c, d, now, ts[1..]);
      n := m + 1;
      OneMoreDue(b.deadlines, d.deadlines, m, now);
    }
  }

  lemma OneMoreDue(ds: seq<Lease>, rest: seq<Lease>, m: nat, now: int)
    requires ds != [] && rest == ds[1..] && ds[0].at <= now && m <= |rest| && EarliestDue(rest, m, now)
    ensures ds[m + 1..] == rest[m..] && EarliestDue(ds, m + 1, now)
    ensures m < |rest| ==> ds[m + 1] == rest[m]
  {
    assert forall k :: 1 <= k <= m ==> ds[k] == rest[k - 1];
  }

  ghost predicate EarliestDue(ds: seq<Lease>, n: nat, now: int)
    requires n <= |ds|
  {
    forall k :: 0 <= k < n ==> ds[k].at <= now
  }

  /** In an ordered index everything after a lease that is not due is not due. */
  lemma {:induction false} NoneDueAfter(ds: seq<Lease>, n: nat, now: int)
    requires Leases(ds) && n < |ds| && now < ds[n].at
    ensures forall k :: n <= k < |ds| ==> now < ds[k].at
  {
    if n > 0 {
      NoneDueAfter(ds[1..], n - 1, now);
      assert forall k :: 1 <= k < |ds| ==> ds[k] == ds[1..][k - 1];
    } else {
      assert forall k :: 1 <= k < |ds| ==> ds[k] in ds[1..];
    }
  }

  lemma {:induction false} PruneComplete(c: Config, b: Broker, budget: nat, now: int) returns (n: nat)
    requires Records(b.completions)
    ensures n <= budget && n <= |b.completions|
    ensures Prune(c, b, budget, now).completions == b.completions[n..]
    ensures n < budget ==>
              && |b.completions[n..]| <= c.cacheMax
              && forall k :: n <= k < |b.completions| ==> now - b.completions[k].time < c.retention
    decreases budget
  {
    if budget > 0 && Stale(c, b, now) {
      var m := PruneComplete(c, DropOldest(b), budget - 1, now);
      n := m + 1;
    } else {
      n := 0;
      forall k | 0 <= k < |b.completions| && budget > 0
        ensures now - b.completions[k].time < c.retention
      {
        assert k == 0 || b.completions[k] in b.completions[1..];
      }
    }
  }

  /** Bounded maintenance is complete up to its budget: `n` earliest leases, all due, were
      reclaimed and either `n` is the batch size or no lease in flight is due; likewise pruning
      either spent its budget or left only outcomes within capacity and retention. */
  lemma MaintenanceComplete(c: Config, b: Broker, now: int, ts: seq<FinishTimes>, pruneAt: int)
    returns (n: nat, pruned: nat)
    requires Inv(c, b) && Can(c, b, Maintains(now, ts, pruneAt))
    ensures var d, reclaimed := Maintain(c, b, now, ts, pruneAt), Reclaim(c, b, now, ts);
            && pruned <= |reclaimed.completions| && d.completions == reclaimed.completions[pruned..]
            && n <= |b.deadlines| && d.deadlines == b.deadlines[n..]
            && EarliestDue(b.deadlines, n, now)
            && (n == c.batch || forall id :: id in d.inFlight ==> now < d.inFlight[id].deadline)
            && (pruned == c.batch ||
                  (|d.completions| <= c.cacheMax && forall x :: x in d.completions ==> pruneAt - x.time < c.retention))
  {
    n := ReclaimDeadlines(c, b, now, ts);
    ReclaimInv(c, b, now, ts, now);
    var r := Reclaim(c, b, now, ts);
    if n < c.batch {
      NoneLeftDue(b.deadlines, r, n, now);
    }
    pruned := PruneComplete(c, r, c.batch, pruneAt);
    PruneStores(c, r, c.batch, pruneAt);
  }

  lemma {:induction false} NoneLeftDue(ds: seq<Lease>, r: Broker, n: nat, now: int)
    requires Leases(ds) && n <= |ds| && LeaseIndex(r.inFlight, r.deadlines) && r.deadlines == ds[n..]
    requires n < |ds| ==> now < ds[n].at
    ensures forall id :: id in r.inFlight ==> now < r.inFlight[id].deadline
  {
    if n < |ds| {
      NoneDueAfter(ds, n, now);
    }
    forall id | id in r.inFlight
      ensures now < r.inFlight[id].deadline
    {
      var l := Lease(r.inFlight[id].deadline, id);
      assert l in r.deadlines;
      var k :| 0 <= k < |r.deadlines| && r.deadlines[k] == l;
      assert ds[n + k] == l;
    }
  }
}
