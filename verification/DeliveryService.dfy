/** The broker service's delivery state and the locked regions that update it, each proved to take
    the step of the model. Ghost fields hold history and the messages that threads carry. */
module DeliveryService {
  import opened Options
  import opened DeliveryModel
  import opened DeliveryInvariants
  import M = DeliveryModel

  class HarbingerService {
    const config: Config
    var queue: map<Id, Message>
    var inFlight: map<Id, Attempt>
    var deadlines: seq<Lease>
    var completions: seq<Completion>
    var completed: map<Token, Completion>
    var dlq: seq<DeadLetter>
    var consumers: set<Id>
    ghost var transit: map<Id, Transit>
    ghost var clock: int
    ghost var accepted: set<Id>
    ghost var acked: map<Id, Message>
    ghost var issued: set<Token>
    ghost var settled: map<Token, Outcome>
    ghost var installs: seq<Id>

    ghost function State(): Broker
      reads this
    {
      Broker(queue, transit, inFlight, deadlines, completions, completed, dlq, consumers, clock,
             accepted, acked, issued, settled, installs)
    }

    constructor (c: Config)
      requires c.Valid()
      ensures config == c && State() == Init()
    {
      config := c;
      queue, inFlight, deadlines, completions, completed, dlq, consumers := map[], map[], [], [], map[], [], {};
      transit, clock, accepted, acked, issued, settled, installs := map[], 0, {}, map[], {}, map[], [];
    }

    method RegisterConsumer(consumer: Id)
      modifies this
      ensures State() == M.Do(config, old(State()), Registers(consumer))
    {
      consumers := consumers + {consumer};
    }

    /** Accept a message under a fresh id. */
    method RouteMessage(id: Id, ttl: Option<nat>, at: int)
      modifies this
      ensures State() == M.Submit(config, old(State()), id, ttl, at)
    {
      var t := if ttl.Some? then ttl.value else config.defaultTtl;
      queue := queue[id := Message(id, at, t, 0, config.maxRetries, 0)];
      accepted := accepted + {id};
    }

    /** The queue hands a message to a pulling thread. */
    method TakeFromQueue(id: Id) returns (m: Message)
      requires id in queue
      modifies this
      ensures m == old(queue)[id] && State() == M.Dequeue(old(State()), id)
    {
      m := queue[id];
      transit := transit[id := Pulled(m)];
      queue := queue - {id};
    }

    method PutBack(id: Id, m: Message)
      requires id in transit && transit[id].message == m
      modifies this
      ensures State() == M.RequeueFront(old(State()), id)
    {
      transit := transit - {id};
      queue := queue[id := m];
    }

    /** The locked end of a pull: install the attempt, or put the message back. */
    method InstallPulled(id: Id, m: Message, owner: Id, token: Token, cancelled: bool, fails: bool, at: int)
      returns (status: Status)
      requires id in transit && transit[id].message == m
      modifies this
      ensures (State(), status) == M.Install(config, old(State()), id, owner, token, cancelled, fails, at)
    {
      if cancelled {
        PutBack(id, m);
        return Cancelled;
      }
      if m.deliveryCount == MAX_DELIVERIES {
        PutBack(id, m);
        return ResourceExhausted;
      }
      if id in inFlight || fails {
        PutBack(id, m);
        return Internal;
      }
      InstallAttempt(id, m, owner, token, at);
      return Ok;
    }

    method StartLease(id: Id, e: Attempt)
      modifies `deadlines, `inFlight
      ensures deadlines == InsertLease(old(deadlines), Lease(e.deadline, id)) && inFlight == old(inFlight)[id := e]
    {
      deadlines := InsertLease(deadlines, Lease(e.deadline, id));
      inFlight := inFlight[id := e];
    }

    /** Count the delivery and start its lease. */
    method InstallAttempt(id: Id, m: Message, owner: Id, token: Token, at: int)
      requires id in transit && transit[id].message == m
      modifies `deadlines, `inFlight, `transit, `issued, `installs, `clock
      ensures State() == M.Launch(config, old(State()), id, owner, token, at)
    {
      var delivered := m.(deliveryCount := m.deliveryCount + 1);
      StartLease(id, Attempt(delivered, owner, token, at + config.lease, delivered.deliveryCount));
      transit := transit - {id};
      NoteDelivery(id, token, at);
    }

    /** History of a delivery. */
    ghost method NoteDelivery(id: Id, token: Token, at: int)
      modifies `issued, `installs, `clock
      ensures issued == old(issued) + {token} && installs == old(installs) + [id] && clock == at
    {
      issued, installs, clock := issued + {token}, installs + [id], at;
    }

    /** Put an expired message a thread holds with the dead letters. */
    method DeadLetterHeld(id: Id, m: Message)
      requires id in transit && transit[id].message == m
      modifies this
      ensures State() == M.DeadLetterExpired(old(State()), id)
    {
      dlq := dlq + [DeadLetter(m, TtlExpired)];
      transit := transit - {id};
    }

    method PruneCompletions(budget: nat, now: int)
      modifies this`completions, this`completed
      ensures State() == M.Prune(config, old(State()), budget, now)
    {
      var left: nat := budget;
      while left > 0 && completions != [] &&
            (|completions| > config.cacheMax || now - completions[0].time >= config.retention)
        invariant 0 <= left
        invariant M.Prune(config, State(), left, now) == M.Prune(config, old(State()), budget, now)
      {
        completed := completed - {completions[0].token};
        completions := completions[1..];
        left := left - 1;
      }
    }

    /** Send a finished attempt's message on: acknowledged, retried or dead-lettered. */
    method RouteFinished(m: Message, kind: Settlement, at: int)
      modifies this`queue, this`dlq, this`acked
      ensures State() == M.Route(old(State()), m, kind, m.Expired(at))
    {
      if m.Expired(at) {
        dlq := dlq + [DeadLetter(m, TtlExpired)];
      } else if kind != Ack {
        var retried := m.(retryCount := m.retryCount + 1);
        if retried.retryCount >= m.maxRetries {
          dlq := dlq + [DeadLetter(retried, MaxRetriesExceeded)];
        } else {
          queue := queue[m.id := retried];
        }
      } else {
        acked := acked[m.id := m];
      }
    }

    /** Finish the attempt in flight under `id`. */
    method FinishLocked(id: Id, kind: Settlement, t: FinishTimes)
      requires id in inFlight
      modifies this
      ensures State() == M.Finish(config, old(State()), id, kind, t)
    {
      RouteFinished(inFlight[id].message, kind, t.expiryAt);
      RecordFinished(id, kind, t.recordAt);
      PruneCompletions(1, t.pruneAt);
      clock := t.pruneAt;
    }

    /** Remember the outcome and drop the lease. */
    method RecordFinished(id: Id, kind: Settlement, at: int)
      requires id in inFlight
      modifies this`completions, this`completed, this`deadlines, this`inFlight, this`settled
      ensures State() == M.Record(old(State()), id, kind, at)
    {
      var entry := inFlight[id];
      var record := Completion(id, entry.token, entry.owner, kind, at);
      completions := completions + [record];
      if entry.token !in completed {
        completed := completed[entry.token := record];
      }
      deadlines := RemoveLease(deadlines, Lease(entry.deadline, id));
      inFlight := inFlight - {id};
      settled := settled[entry.token := Outcome(id, entry.owner, kind)];
    }

    /** Settle an attempt once, or replay its retained outcome. */
    method Settle(owner: Id, id: Id, token: Token, kind: Settlement, t: SettleTimes) returns (status: Status)
      modifies this
      ensures (State(), status) == M.Settle(config, old(State()), owner, id, token, kind, t)
    {
      if owner !in consumers {
        return PermissionDenied;
      }
      if !TokenSyntax(token) {
        return InvalidArgument;
      }
      if token in completed {
        var record := completed[token];
        if Outdated(config, record, t.lookupAt) {
          completions := RemoveCompletion(completions, record);
          completed := completed - {token};
        } else if record.id == id {
          if record.owner != owner {
            return PermissionDenied;
          }
          return if record.kind == kind then Ok else FailedPrecondition;
        }
      }
      status := SettleInFlight(owner, id, token, kind, t);
    }

    method SettleInFlight(owner: Id, id: Id, token: Token, kind: Settlement, t: SettleTimes) returns (status: Status)
      modifies this
      ensures (State(), status) == M.SettleLive(config, old(State()), owner, id, token, kind, t)
    {
      if id !in inFlight {
        return NotFound;
      }
      if inFlight[id].owner != owner {
        return PermissionDenied;
      }
      if inFlight[id].token != token {
        return FailedPrecondition;
      }
      if t.deadlineAt >= inFlight[id].deadline {
        FinishLocked(id, LeaseExpired, t.finish);
        return FailedPrecondition;
      }
      FinishLocked(id, kind, t.finish);
      return Ok;
    }

    /** Reclaim expired leases, earliest first, within the batch budget. */
    method ReclaimExpired(now: int, ts: seq<FinishTimes>)
      requires LeaseIndex(inFlight, deadlines)
      modifies this
      ensures State() == M.Reclaim(config, old(State()), now, ts)
    {
      ghost var goal := M.Reclaim(config, State(), now, ts);
      var used := 0;
      while used < |ts| && deadlines != [] && deadlines[0].at <= now
        invariant 0 <= used <= |ts|
        invariant LeaseIndex(inFlight, deadlines)
        invariant M.Reclaim(config, State(), now, ts[used..]) == goal
      {
        assert ts[used..][1..] == ts[used + 1..];
        ReclaimFirst(ts[used], now, ts[used..]);
        used := used + 1;
      }
    }

    /** Finish the attempt with the earliest lease; `left` are the readings not yet used. */
    method ReclaimFirst(t: FinishTimes, now: int, ghost left: seq<FinishTimes>)
      requires LeaseIndex(inFlight, deadlines) && LeaseDue(State(), now) && left != [] && left[0] == t
      modifies this
      ensures LeaseIndex(inFlight, deadlines)
      ensures M.Reclaim(config, State(), now, left[1..]) == M.Reclaim(config, old(State()), now, left)
    {
      ReclaimStep(config, State(), now, left);
      FinishLeased(config, State(), deadlines[0].id, LeaseExpired, t);
      FinishLocked(deadlines[0].id, LeaseExpired, t);
    }

    /** Reclaim expired leases and prune the history, each within the batch budget. */
    method MaintainDeliveries(now: int, ts: seq<FinishTimes>, pruneAt: int)
      requires LeaseIndex(inFlight, deadlines) && |ts| == config.batch
      modifies this
      ensures State() == M.Maintain(config, old(State()), now, ts, pruneAt)
    {
      ReclaimExpired(now, ts);
      PruneCompletions(config.batch, pruneAt);
      clock := pruneAt;
    }
  }
}
