/** The event loop: it always has a next event, it ends, and when it ends every row was started
    and completed exactly once. `now` is not monotone, so progress is measured against `clock`. */
module SchedulerLoop {
  import opened SchedulerModel
  import opened SchedulerInvariants

  /** No pending arrival or completion is in the past, and everything that arrived has arrived. */
  ghost predicate Timely(p: Setup, s: State)
    requires p.Valid() && Shape(p, s)
  {
    && s.now <= s.clock
    && (forall k :: 0 <= k < |s.running| ==> s.clock <= s.running[k].end)
    && (s.next < |p.rows| ==> s.clock <= p.Arrival(s.next))
    && (forall i :: 0 <= i < s.next ==> p.Arrival(i) <= s.clock)
  }

  ghost predicate Sound(p: Setup, s: State) {
    p.Valid() && Shape(p, s) && Accounted(p, s) && Recorded(p, s) && Timely(p, s)
  }

  /** What holds at the loop head: a worker idles only when nothing waits. */
  ghost predicate LoopInv(p: Setup, s: State) {
    Sound(p, s) && (s.idle == 0 || s.queued == 0)
  }

  lemma InitSound(p: Setup)
    requires p.Valid()
    ensures LoopInv(p, Init(p))
  {
    var s := Init(p);
    EmptySize(s.queues);
    forall i: nat
      ensures Places(s, i) == 0
    {
      EmptyCounts(s.queues, i);
    }
    assert p.Arrival(0) == 0.0 / p.compress == 0.0;
  }

  lemma {:induction false} EmptySize(qs: seq<seq<Waiting>>)
    requires forall l :: 0 <= l < |qs| ==> qs[l] == []
    ensures Size(qs) == 0
  {
    if qs != [] {
      EmptySize(qs[..|qs| - 1]);
    }
  }

  lemma ArrivalsSorted(p: Setup, i: nat)
    requires p.Valid() && i + 1 < |p.rows|
    ensures p.Arrival(i) <= p.Arrival(i + 1)
  {
    var a, b := p.rows[i].arrivalMs - p.rows[0].arrivalMs, p.rows[i + 1].arrivalMs - p.rows[0].arrivalMs;
    assert b / p.compress - a / p.compress == (b - a) / p.compress >= 0.0;
  }

  // ----- dispatching -----

  lemma ServeSound(p: Setup, s: State, l: nat)
    requires Sound(p, s) && s.now == s.clock && s.idle > 0 && l < p.levels && s.queues[l] != []
    ensures Sound(p, Serve(p, s, l))
  {
    WaitingElsewhere(p, s, l, 0);
    ServeAccounted(p, s, l);
    ServeRecorded(p, s, l);
    var t := Serve(p, s, l);
    var w := s.queues[l][0];
    var c := Completion(s.now + p.rows[w.index].durationMs, w.index);
    InsertMembers(c, s.running);
    forall k | 0 <= k < |t.running|
      ensures t.clock <= t.running[k].end
    {
      assert t.running[k] in t.running;
    }
  }

  lemma {:induction false} DispatchSound(p: Setup, s: State)
    requires Sound(p, s) && s.now == s.clock
    ensures var t := Dispatch(p, s);
            && LoopInv(p, t)
            && t.next == s.next && t.finished == s.finished && t.now == s.now && t.clock == s.clock
            && t.nextAging == s.nextAging
    decreases if s.idle > 0 then s.idle else 0
  {
    if s.idle > 0 && s.queued > 0 {
      ChoosePicks(p, s);
      var best := Choose(p, s).value;
      ServeSound(p, s, best);
      DispatchSound(p, Serve(p, s, best));
    }
  }

  // ----- aging touches only the queues -----

  ghost predicate OnlyQueues(s: State, t: State) {
    t == s.(queues := t.queues, promotedIn := t.promotedIn, vclock := t.vclock)
  }

  lemma {:induction false} AgeLevelOnly(p: Setup, s: State, level: nat)
    requires Shape(p, s) && 1 <= level < p.levels
    ensures OnlyQueues(s, AgeLevel(p, s, level))
    decreases |s.queues[level]|
  {
    if Due(p, s, level) && !p.policy.pausing {
      PromoteShape(p, s, level);
      AgeLevelOnly(p, Promote(p, s, level), level);
    }
  }

  lemma {:induction false} AgeDownOnly(p: Setup, s: State, level: nat)
    requires Shape(p, s) && p.compress != 0.0 && level < p.levels
    ensures OnlyQueues(s, AgeDown(p, s, level))
    decreases level
  {
    if level > 0 {
      if Paused(p, s, level) {
        AgeDownOnly(p, s, level - 1);
      } else {
        AgeLevelOnly(p, s, level);
        AgeDownOnly(p, AgeLevel(p, s, level), level - 1);
      }
    }
  }

  lemma AgeOnly(p: Setup, s: State)
    requires p.Valid() && Shape(p, s)
    ensures OnlyQueues(s.(nextAging := s.now + p.interval), Age(p, s))
  {
    AgeDownOnly(p, s, p.levels - 1);
  }

  lemma {:induction false} AgeLevelAccounted(p: Setup, s: State, level: nat)
    requires p.Valid() && Shape(p, s) && Accounted(p, s) && 1 <= level < p.levels
    ensures Accounted(p, AgeLevel(p, s, level))
    decreases |s.queues[level]|
  {
    if Due(p, s, level) {
      PromoteShape(p, s, level);
      PromoteAccounted(p, s, level);
      if !p.policy.pausing {
        AgeLevelAccounted(p, Promote(p, s, level), level);
      }
    }
  }

  lemma {:induction false} AgeDownAccounted(p: Setup, s: State, level: nat)
    requires p.Valid() && Shape(p, s) && Accounted(p, s) && level < p.levels
    ensures Accounted(p, AgeDown(p, s, level))
    decreases level
  {
    if level > 0 {
      if Paused(p, s, level) {
        AgeDownAccounted(p, s, level - 1);
      } else {
        AgeLevelAccounted(p, s, level);
        AgeDownAccounted(p, AgeLevel(p, s, level), level - 1);
      }
    }
  }

  // ----- one iteration -----

  /** The loop never finds itself without an event. */
  lemma NeverStuck(p: Setup, s: State)
    requires LoopInv(p, s) && |s.finished| < |p.rows|
    ensures NextEvent(p, s) != Stuck
    ensures s.queued != 0 ==> s.running != []
  {
  }

  lemma CompletingSound(p: Setup, s: State)
    requires LoopInv(p, s) && |s.finished| < |p.rows| && NextEvent(p, s).Completing?
    ensures Sound(p, Handle(p, s)) && Handle(p, s).now == Handle(p, s).clock
    ensures |Handle(p, s).finished| == |s.finished| + 1 && Handle(p, s).next == s.next
  {
    var t := MoveTo(s, NextEvent(p, s).at);
    MoveSound(p, s);
    CompleteAccounted(p, t);
    CompleteRecorded(p, t);
  }

  lemma ArrivedTimely(p: Setup, t: State)
    requires Sound(p, t) && t.next < |p.rows| && t.now == t.clock == p.Arrival(t.next) && Shape(p, Arrive(p, t))
    ensures Timely(p, Arrive(p, t)) && Recorded(p, Arrive(p, t))
  {
    if t.next + 1 < |p.rows| {
      ArrivalsSorted(p, t.next);
    }
  }

  lemma ArrivingSound(p: Setup, s: State)
    requires LoopInv(p, s) && |s.finished| < |p.rows| && NextEvent(p, s).Arriving?
    ensures Sound(p, Handle(p, s)) && Handle(p, s).now == Handle(p, s).clock
    ensures Handle(p, s).finished == s.finished && Handle(p, s).next == s.next + 1
  {
    var t := MoveTo(s, NextEvent(p, s).at);
    MoveSound(p, s);
    ArriveAccounted(p, t);
    ArriveShape(p, t);
    ArrivedTimely(p, t);
  }

  /** Setting the next aging time disturbs nothing. */
  lemma RearmSound(p: Setup, s: State, t: State)
    requires LoopInv(p, s) && t == s.(nextAging := t.nextAging)
    ensures LoopInv(p, t)
  {
    assert forall i: nat :: Places(t, i) == Places(s, i);
  }

  lemma AgedSound(p: Setup, s: State, t: State)
    requires Sound(p, s) && Shape(p, t) && Accounted(p, t) && OnlyQueues(s, t)
    ensures Sound(p, t)
  {
  }

  lemma {:induction false} EarliestFirst(r: seq<Completion>, at: real)
    requires Ordered(r) && (r == [] || at <= r[0].end)
    ensures forall k :: 0 <= k < |r| ==> at <= r[k].end
  {
    forall k | 0 <= k < |r|
      ensures at <= r[k].end
    {
      assert r[k] in r;
    }
  }

  /** Moving to the next event leaves nothing pending in the past. */
  lemma MoveSound(p: Setup, s: State)
    requires LoopInv(p, s) && NextEvent(p, s) != Stuck
    ensures LoopInv(p, MoveTo(s, NextEvent(p, s).at))
  {
    var at := NextEvent(p, s).at;
    DoAccounted(p, s, Move(at));
    EarliestFirst(s.running, at);
  }

  lemma IdleStep(p: Setup, s: State)
    requires p.Valid() && Shape(p, s) && NextEvent(p, s) != Stuck
    requires Handle(p, s).idle <= 0 && Handle(p, s).queued != 0
    ensures Step(p, s) == Handle(p, s)
  {
  }

  /** An aging pass starts nothing: no worker was idle. */
  lemma AgingStep(p: Setup, s: State)
    requires p.Valid() && Shape(p, s) && (s.idle == 0 || s.queued == 0) && NextEvent(p, s).Aging?
    ensures Step(p, s) == Age(p, MoveTo(s, s.nextAging))
    ensures OnlyQueues(MoveTo(s, s.nextAging).(nextAging := s.nextAging + p.interval), Step(p, s))
  {
    AgeOnly(p, MoveTo(s, s.nextAging));
    IdleStep(p, s);
  }

  lemma AgeSound(p: Setup, m: State)
    requires LoopInv(p, m)
    ensures LoopInv(p, Age(p, m))
  {
    AgeDownAccounted(p, m, p.levels - 1);
    AgeDownOnly(p, m, p.levels - 1);
    var t := AgeDown(p, m, p.levels - 1);
    AgedSound(p, m, t);
    RearmSound(p, t, Age(p, m));
  }

  lemma AgingSound(p: Setup, s: State)
    requires LoopInv(p, s) && NextEvent(p, s).Aging?
    ensures LoopInv(p, Step(p, s))
  {
    MoveSound(p, s);
    AgeSound(p, MoveTo(s, s.nextAging));
    AgingStep(p, s);
  }

  lemma StepSound(p: Setup, s: State)
    requires LoopInv(p, s) && |s.finished| < |p.rows|
    ensures NextEvent(p, s) != Stuck && LoopInv(p, Step(p, s))
  {
    NeverStuck(p, s);
    match NextEvent(p, s)
    case Completing(_) =>
      CompletingSound(p, s);
      FinishStep(p, s);
    case Arriving(_) =>
      ArrivingSound(p, s);
      FinishStep(p, s);
    case Aging(_) =>
      AgingSound(p, s);
  }

  lemma FinishStep(p: Setup, s: State)
    requires p.Valid() && Shape(p, s) && NextEvent(p, s) != Stuck
    requires Sound(p, Handle(p, s)) && Handle(p, s).now == Handle(p, s).clock
    ensures LoopInv(p, Step(p, s))
    ensures Step(p, s).finished == Handle(p, s).finished && Step(p, s).next == Handle(p, s).next
    ensures Step(p, s).now == Step(p, s).clock == Handle(p, s).clock
  {
    var h := Handle(p, s);
    DispatchSound(p, h);
    var t := Dispatch(p, h);
    RearmSound(p, t, Step(p, s));
  }

  // ----- termination -----

  /** Arrivals and completions still to come. */
  ghost function Remaining(p: Setup, s: State): int {
    2 * |p.rows| - s.next - |s.finished|
  }

  /** When the next arrival or completion is due. */
  ghost function Until(p: Setup, s: State): real
    requires p.Valid() && Shape(p, s) && s.running != []
  {
    if s.next < |p.rows| && p.Arrival(s.next) < s.running[0].end then p.Arrival(s.next) else s.running[0].end
  }

  ghost function PassesLeft(until: real, from: real, interval: real): nat
    requires 0.0 < interval
  {
    var left := ((until - from) / interval).Floor + 1;
    if left < 0 then 0 else left
  }

  /** Aging passes that can still run before the next arrival or completion. */
  ghost function Passes(p: Setup, s: State): nat
    requires p.Valid() && Shape(p, s)
  {
    if s.queued == 0 || !p.policy.aging || s.running == [] then 0
    else PassesLeft(Until(p, s), s.nextAging, p.interval)
  }

  lemma FloorDown(x: real, d: real)
    requires 0.0 < x && 0.0 < d
    ensures 0 <= (x / d).Floor
    ensures ((x - d) / d).Floor == (x / d).Floor - 1
  {
    var q, r := x / d, (x - d) / d;
    assert q * d == x && r * d == x - d;
    assert (q - 1.0) * d == q * d - d;
    Cancel(q - 1.0, r, d);
    assert q > 0.0;
  }

  lemma Cancel(a: real, b: real, d: real)
    requires 0.0 < d && a * d == b * d
    ensures a == b
  {
    assert (a - b) * d == 0.0;
  }

  lemma OnePassLess(until: real, from: real, interval: real)
    requires 0.0 < interval && from < until
    ensures PassesLeft(until, from + interval, interval) < PassesLeft(until, from, interval)
  {
    FloorDown(until - from, interval);
    assert until - (from + interval) == until - from - interval;
  }

  lemma PassesDrop(p: Setup, s: State, t: State)
    requires p.Valid() && Shape(p, s) && Shape(p, t)
    requires s.queued != 0 && p.policy.aging && s.running != [] && s.nextAging < Until(p, s)
    requires t.queued == s.queued && t.next == s.next && t.running == s.running
    requires t.nextAging == s.nextAging + p.interval
    ensures Passes(p, t) < Passes(p, s)
  {
    OnePassLess(Until(p, s), s.nextAging, p.interval);
  }

  lemma AgingProgress(p: Setup, s: State)
    requires LoopInv(p, s) && NextEvent(p, s).Aging?
    ensures Remaining(p, Step(p, s)) == Remaining(p, s)
    ensures Passes(p, Step(p, s)) < Passes(p, s)
  {
    AgingStep(p, s);
    PassesDrop(p, s, Step(p, s));
  }

  /** Every iteration makes progress: an arrival or completion is used up, or a pass before it. */
  lemma StepProgress(p: Setup, s: State)
    requires LoopInv(p, s) && |s.finished| < |p.rows|
    ensures NextEvent(p, s) != Stuck
    ensures Shape(p, Step(p, s))
    ensures 0 <= Remaining(p, s)
    ensures Remaining(p, Step(p, s)) <= Remaining(p, s)
    ensures Remaining(p, Step(p, s)) == Remaining(p, s) ==> Passes(p, Step(p, s)) < Passes(p, s)
  {
    NeverStuck(p, s);
    match NextEvent(p, s)
    case Completing(_) =>
      CompletingSound(p, s);
      FinishStep(p, s);
    case Arriving(_) =>
      ArrivingSound(p, s);
      FinishStep(p, s);
    case Aging(_) =>
      AgingProgress(p, s);
  }

  /** The states at the loop head of a simulation, in order. */
  ghost predicate Trajectory(p: Setup, states: seq<State>) {
    && p.Valid()
    && states != []
    && states[0] == Init(p)
    && forall k :: 0 < k < |states| ==> Advances(p, states[k - 1], states[k])
  }

  /** One iteration leads from `s` to `t`, as far as an iteration from `s` is defined. */
  ghost predicate Advances(p: Setup, s: State, t: State)
    requires p.Valid()
  {
    |s.finished| < |p.rows| && (Shape(p, s) && NextEvent(p, s) != Stuck ==> t == Step(p, s))
  }

  lemma {:induction false} TrajectorySound(p: Setup, states: seq<State>, n: nat)
    requires Trajectory(p, states) && n < |states|
    ensures LoopInv(p, states[n])
  {
    if n == 0 {
      InitSound(p);
    } else {
      TrajectorySound(p, states, n - 1);
      assert Advances(p, states[n - 1], states[n]);
      StepSound(p, states[n - 1]);
    }
  }

  /** The whole loop, from any state of it. */
  ghost function Simulate(p: Setup, s: State): (r: State)
    requires LoopInv(p, s)
    ensures LoopInv(p, r)
    ensures |p.rows| <= |r.finished|
    decreases Remaining(p, s), Passes(p, s)
  {
    if |s.finished| < |p.rows| then
      StepSound(p, s);
      StepProgress(p, s);
      Simulate(p, Step(p, s))
    else s
  }

  /** The simulator ends with every row started and completed exactly once, having waited a
      non-negative time, and its latency is its wait plus its duration. */
  lemma {:induction false} SimulationComplete(p: Setup)
    requires p.Valid()
    ensures LoopInv(p, Init(p))
    ensures var f := Simulate(p, Init(p));
            && |f.finished| == |p.rows|
            && f.running == [] && f.queued == 0 && f.idle == p.workers
            && |f.wait| == |f.latency| == |p.rows|
            && forall i: nat | i < |p.rows| ::
                 && multiset(f.finished)[i] == 1
                 && 0.0 <= f.wait[i]
                 && f.latency[i] == f.wait[i] + p.rows[i].durationMs
  {
    InitSound(p);
    var f := Simulate(p, Init(p));
    SomeLevelHolds(f.queues);
    forall i: nat | i < |p.rows|
      ensures multiset(f.finished)[i] == 1 && i in f.finished
    {
      EmptyCounts(f.queues, i);
      assert Places(f, i) == 1;
    }
  }
}
