/** The trace-driven multi-level queue simulator as a value: its parameters, its state, the
    small actions its lambdas perform, and one iteration of its event loop.

    Doubles are reals. `INFINITY` is the absence of a time. The routing callback is consulted
    exactly once per row, in row order, so its answers are a sequence with one entry per row. */
module SchedulerModel {
  import opened Options

  datatype Row = Row(arrivalMs: real, durationMs: real)

  /** What the routing callback answered for a row: its tier and its estimate (0 for none). */
  datatype Routed = Routed(tier: nat, estimate: real)

  /** No weights select strict priority. */
  datatype Policy = Policy(weights: seq<real>, aging: bool, pausing: bool)

  datatype Waiting = Waiting(index: nat, placed: real, promoted: bool)

  datatype Completion = Completion(end: real, index: nat)

  datatype Setup = Setup(rows: seq<Row>, routes: seq<Routed>, compress: real, workers: nat, levels: nat,
                         threshold: real, interval: real, policy: Policy)
  {
    ghost predicate Valid() {
      && 0 < |rows| == |routes|
      && 0.0 < compress
      && 1 <= workers
      && 1 <= levels
      && (forall i :: 0 <= i < |routes| ==> routes[i].tier < levels)
      && (policy.weights == [] || |policy.weights| == levels)
      && (forall l :: 0 <= l < |policy.weights| ==> 0.0 < policy.weights[l])
      && (forall i :: 0 < i < |rows| ==> rows[i - 1].arrivalMs <= rows[i].arrivalMs)
      && (forall i :: 0 <= i < |rows| ==> 0.0 <= rows[i].durationMs)
      && (policy.aging ==> 0.0 < interval)
    }

    predicate Weighted() {
      policy.weights != []
    }

    /** When a row arrives on the simulation clock. */
    function Arrival(i: nat): real
      requires i < |rows| && compress != 0.0
    {
      (rows[i].arrivalMs - rows[0].arrivalMs) / compress
    }
  }

  /** `clock` is the latest event time so far; `now` can fall behind it during aging passes.
      `finished` lists completed rows in completion order, so the source's `done` is its length. */
  datatype State = State(
    queues: seq<seq<Waiting>>, promotedIn: seq<int>, vclock: seq<real>, levelCost: seq<real>, vfloor: real,
    running: seq<Completion>, next: nat, queued: int, idle: int, now: real, nextAging: real,
    pulledFrom: seq<nat>, wait: seq<real>, latency: seq<real>, finished: seq<nat>, clock: real)

  function Max(a: real, b: real): real {
    if a < b then b else a
  }

  function Init(p: Setup): State {
    State(seq(p.levels, _ => []), seq(p.levels, _ => 0), seq(p.levels, _ => 0.0), seq(p.levels, _ => 0.0), 0.0,
          [], 0, 0, p.workers, 0.0, p.interval,
          seq(|p.rows|, _ => 0), seq(|p.rows|, _ => 0.0), seq(|p.rows|, _ => 0.0), [], 0.0)
  }

  // ----- shape: every index the simulator uses is in range -----

  ghost predicate Shape(p: Setup, s: State) {
    && |s.queues| == |s.promotedIn| == |s.vclock| == |s.levelCost| == p.levels
    && |s.pulledFrom| == |s.wait| == |s.latency| == |p.rows|
    && s.next <= |p.rows|
    && (forall l, k :: 0 <= l < |s.queues| && 0 <= k < |s.queues[l]| ==> s.queues[l][k].index < |p.rows|)
    && (forall k :: 0 <= k < |s.running| ==> s.running[k].index < |p.rows|)
    && (forall i :: 0 <= i < |s.pulledFrom| ==> s.pulledFrom[i] < p.levels)
    && s.queued == Size(s.queues)
  }

  /** Messages waiting in all levels. */
  function Size(qs: seq<seq<Waiting>>): nat {
    if qs == [] then 0 else Size(qs[..|qs| - 1]) + |qs[|qs| - 1]|
  }

  lemma {:induction false} UpdateSize(qs: seq<seq<Waiting>>, l: nat, q: seq<Waiting>)
    requires l < |qs|
    ensures Size(qs[l := q]) == Size(qs) - |qs[l]| + |q|
  {
    var n := |qs| - 1;
    if l == n {
      assert qs[l := q][..n] == qs[..n];
    } else {
      UpdateSize(qs[..n], l, q);
      assert qs[l := q][..n] == qs[..n][l := q];
    }
  }

  lemma {:induction false} SomeLevelHolds(qs: seq<seq<Waiting>>)
    ensures Size(qs) > 0 ==> exists l :: 0 <= l < |qs| && qs[l] != []
    ensures Size(qs) == 0 ==> forall l :: 0 <= l < |qs| ==> qs[l] == []
  {
    if qs != [] {
      var n := |qs| - 1;
      SomeLevelHolds(qs[..n]);
      if Size(qs[..n]) > 0 {
        var l :| 0 <= l < n && qs[..n][l] != [];
        assert qs[l] != [];
      }
      forall l | 0 <= l < |qs| && Size(qs) == 0
        ensures qs[l] == []
      {
        if l < n {
          assert qs[l] == qs[..n][l];
        }
      }
    }
  }

  // ----- the completion queue -----

  predicate Earlier(a: Completion, b: Completion) {
    a.end < b.end || (a.end == b.end && a.index < b.index)
  }

  function Insert(c: Completion, r: seq<Completion>): seq<Completion> {
    if r == [] || Earlier(c, r[0]) then [c] + r else [r[0]] + Insert(c, r[1..])
  }

  ghost predicate Ordered(r: seq<Completion>) {
    r == [] || ((forall c :: c in r ==> !Earlier(c, r[0])) && Ordered(r[1..]))
  }

  lemma {:induction false} InsertElements(c: Completion, r: seq<Completion>)
    ensures |Insert(c, r)| == |r| + 1
    ensures multiset(Insert(c, r)) == multiset(r) + multiset{c}
  {
    if r == [] || Earlier(c, r[0]) {
      assert ([c] + r)[1..] == r;
    } else {
      InsertElements(c, r[1..]);
      assert r == [r[0]] + r[1..];
    }
  }

  lemma {:induction false} InsertMembers(c: Completion, r: seq<Completion>)
    ensures forall x :: x in Insert(c, r) <==> x == c || x in r
  {
    InsertElements(c, r);
    forall x
      ensures x in Insert(c, r) <==> x == c || x in r
    {
      assert x in Insert(c, r) <==> x in multiset(Insert(c, r));
      assert x in r <==> x in multiset(r);
    }
  }

  /** A priority queue: its front is a least pair, and pushing keeps it so. */
  lemma {:induction false} InsertOrdered(c: Completion, r: seq<Completion>)
    requires Ordered(r)
    ensures Ordered(Insert(c, r))
  {
    if r == [] || Earlier(c, r[0]) {
      assert ([c] + r)[1..] == r;
    } else {
      InsertOrdered(c, r[1..]);
      InsertMembers(c, r);
      assert Insert(c, r)[1..] == Insert(c, r[1..]);
    }
  }

  // ----- the lambdas -----

  /** Append to a level. A level that was empty rejoins at the floor of the active clocks. */
  function Place(p: Setup, s: State, level: nat, w: Waiting): State
    requires Shape(p, s) && level < p.levels && w.index < |p.rows|
  {
    s.(vclock := if p.Weighted() && s.queues[level] == []
                 then s.vclock[level := Max(s.vclock[level], s.vfloor)] else s.vclock,
       promotedIn := s.promotedIn[level := s.promotedIn[level] + (if w.promoted then 1 else 0)],
       queues := s.queues[level := s.queues[level] + [w]])
  }

  /** Take the head of a level. */
  function Drop(p: Setup, s: State, level: nat): State
    requires Shape(p, s) && level < p.levels && s.queues[level] != []
  {
    s.(queues := s.queues[level := s.queues[level][1..]],
       promotedIn := s.promotedIn[level := s.promotedIn[level] - (if s.queues[level][0].promoted then 1 else 0)])
  }

  /** Give the head of a level to an idle worker. */
  function Start(p: Setup, s: State, level: nat): State
    requires Shape(p, s) && p.compress != 0.0 && level < p.levels && s.queues[level] != []
  {
    var w := s.queues[level][0];
    Drop(p, s, level).(
      queued := s.queued - 1, idle := s.idle - 1,
      pulledFrom := s.pulledFrom[w.index := level],
      wait := s.wait[w.index := s.now - p.Arrival(w.index)],
      running := Insert(Completion(s.now + p.rows[w.index].durationMs, w.index), s.running))
  }

  /** What a weighted dispatch charges for a row taken from a level. */
  function Charge(p: Setup, s: State, level: nat, index: nat): real
    requires Shape(p, s) && level < p.levels && index < |p.routes|
  {
    var cost := if p.routes[index].estimate > 0.0 then p.routes[index].estimate
                else if s.levelCost[level] > 0.0 then s.levelCost[level] else 1.0;
    Max(cost, 1.0)
  }

  /** The level the next dispatch serves: a least clock under weights, else the first non-empty. */
  ghost predicate IsChoice(p: Setup, s: State, best: nat)
    requires Shape(p, s)
  {
    && best < p.levels
    && s.queues[best] != []
    && (p.Weighted() ==>
          forall l :: 0 <= l < p.levels && s.queues[l] != [] ==>
            if l < best then s.vclock[best] < s.vclock[l] else s.vclock[best] <= s.vclock[l])
    && (!p.Weighted() ==> forall l :: 0 <= l < best ==> s.queues[l] == [])
  }

  function ChooseFrom(p: Setup, s: State, level: nat, best: Option<nat>): (r: Option<nat>)
    requires Shape(p, s) && level <= p.levels
    requires best.Some? ==> best.value < level
    ensures r.Some? ==> r.value < p.levels
    decreases p.levels - level
  {
    if level == p.levels then best
    else
      var better := s.queues[level] != [] &&
                    (best.None? || (p.Weighted() && s.vclock[level] < s.vclock[best.value]));
      ChooseFrom(p, s, level + 1, if better then Some(level) else best)
  }

  function Choose(p: Setup, s: State): (r: Option<nat>)
    requires Shape(p, s)
    ensures r.Some? ==> r.value < p.levels
  {
    ChooseFrom(p, s, 0, None)
  }

  /** One dispatch, taken when a worker is idle and a level holds work. */
  function Serve(p: Setup, s: State, best: nat): State
    requires p.Valid() && Shape(p, s) && best < p.levels && s.queues[best] != []
  {
    var w := s.queues[best][0];
    if p.Weighted() then
      var t := Start(p, s, best);
      t.(vfloor := Max(s.vfloor, s.vclock[best]),
         vclock := s.vclock[best := s.vclock[best] + Charge(p, s, best, w.index) / p.policy.weights[best]])
    else Start(p, s, best)
  }

  /** A worker finishes: its row is done and its level's running cost moves. */
  function Complete(p: Setup, s: State): State
    requires Shape(p, s) && p.compress != 0.0 && s.running != []
  {
    var c := s.running[0];
    var level := s.pulledFrom[c.index];
    var average := s.levelCost[level];
    var duration := p.rows[c.index].durationMs;
    s.(running := s.running[1..], idle := s.idle + 1, finished := s.finished + [c.index],
       latency := s.latency[c.index := c.end - p.Arrival(c.index)],
       levelCost := s.levelCost[level := if average > 0.0 then average + 0.05 * (duration - average) else duration])
  }

  /** The next row arrives at its tier. */
  function Arrive(p: Setup, s: State): State
    requires p.Valid() && Shape(p, s) && s.next < |p.rows|
  {
    Place(p, s, p.routes[s.next].tier, Waiting(s.next, s.now, false)).(queued := s.queued + 1, next := s.next + 1)
  }

  /** Move the head of a level one level up, as of now. */
  function Promote(p: Setup, s: State, level: nat): State
    requires Shape(p, s) && 1 <= level < p.levels && s.queues[level] != []
  {
    var w := s.queues[level][0];
    PlaceDropped(p, s, level);
    Place(p, Drop(p, s, level).(queued := s.queued - 1), level - 1, Waiting(w.index, s.now, true)).(queued := s.queued)
  }

  lemma PlaceDropped(p: Setup, s: State, level: nat)
    requires Shape(p, s) && level < p.levels && s.queues[level] != []
    ensures Shape(p, Drop(p, s, level).(queued := s.queued - 1))
  {
    UpdateSize(s.queues, level, s.queues[level][1..]);
    var t := Drop(p, s, level);
    forall l, k | 0 <= l < |t.queues| && 0 <= k < |t.queues[l]|
      ensures t.queues[l][k].index < |p.rows|
    {
      if l == level {
        assert t.queues[l][k] == s.queues[l][k + 1];
      }
    }
  }

  // ----- shape is kept -----

  lemma PlaceShape(p: Setup, s: State, level: nat, w: Waiting)
    requires Shape(p, s) && level < p.levels && w.index < |p.rows|
    ensures Shape(p, Place(p, s, level, w).(queued := s.queued + 1))
  {
    UpdateSize(s.queues, level, s.queues[level] + [w]);
  }

  lemma StartShape(p: Setup, s: State, level: nat)
    requires Shape(p, s) && p.compress != 0.0 && level < p.levels && s.queues[level] != []
    ensures Shape(p, Start(p, s, level))
    ensures |Start(p, s, level).running| == |s.running| + 1
  {
    PlaceDropped(p, s, level);
    var w := s.queues[level][0];
    var c := Completion(s.now + p.rows[w.index].durationMs, w.index);
    InsertElements(c, s.running);
    InsertMembers(c, s.running);
    var r := Insert(c, s.running);
    forall k | 0 <= k < |r|
      ensures r[k].index < |p.rows|
    {
      assert r[k] in r;
    }
  }

  lemma ServeShape(p: Setup, s: State, best: nat)
    requires p.Valid() && Shape(p, s) && best < p.levels && s.queues[best] != []
    ensures Shape(p, Serve(p, s, best))
  {
    StartShape(p, s, best);
  }

  lemma CompleteShape(p: Setup, s: State)
    requires Shape(p, s) && p.compress != 0.0 && s.running != []
    ensures Shape(p, Complete(p, s))
  {
  }

  lemma PromoteShape(p: Setup, s: State, level: nat)
    requires Shape(p, s) && 1 <= level < p.levels && s.queues[level] != []
    ensures Shape(p, Promote(p, s, level))
  {
    PlaceDropped(p, s, level);
    var w := s.queues[level][0];
    PlaceShape(p, Drop(p, s, level).(queued := s.queued - 1), level - 1, Waiting(w.index, s.now, true));
  }

  lemma {:induction false} ChooseFromIsChoice(p: Setup, s: State, level: nat, best: Option<nat>)
    requires Shape(p, s) && level <= p.levels
    requires best.Some? ==>
               && best.value < level
               && s.queues[best.value] != []
               && (p.Weighted() ==>
                     forall l :: 0 <= l < level && s.queues[l] != [] ==>
                       if l < best.value then s.vclock[best.value] < s.vclock[l]
                       else s.vclock[best.value] <= s.vclock[l])
               && (!p.Weighted() ==> forall l :: 0 <= l < best.value ==> s.queues[l] == [])
    requires best.None? ==> forall l :: 0 <= l < level ==> s.queues[l] == []
    ensures var r := ChooseFrom(p, s, level, best);
            if r.Some? then IsChoice(p, s, r.value) else forall l :: 0 <= l < p.levels ==> s.queues[l] == []
    decreases p.levels - level
  {
    if level < p.levels {
      var better := s.queues[level] != [] &&
                    (best.None? || (p.Weighted() && s.vclock[level] < s.vclock[best.value]));
      ChooseFromIsChoice(p, s, level + 1, if better then Some(level) else best);
    }
  }

  /** With work queued the scan finds a level, and it is the one the policy names. */
  lemma ChoosePicks(p: Setup, s: State)
    requires Shape(p, s) && 0 < s.queued
    ensures Choose(p, s).Some? && IsChoice(p, s, Choose(p, s).value)
  {
    ChooseFromIsChoice(p, s, 0, None);
    SomeLevelHolds(s.queues);
  }

  // ----- the loop -----

  /** Dispatch until no worker is idle or nothing waits. */
  function Dispatch(p: Setup, s: State): (r: State)
    requires p.Valid() && Shape(p, s)
    ensures Shape(p, r)
    ensures r.idle <= 0 || r.queued <= 0
    decreases if s.idle > 0 then s.idle else 0
  {
    if s.idle > 0 && s.queued > 0 then
      ChoosePicks(p, s);
      var best := Choose(p, s).value;
      ServeShape(p, s, best);
      Dispatch(p, Serve(p, s, best))
    else s
  }

  /** Pausing aging skips a level while the one above is behind. */
  predicate Paused(p: Setup, s: State, level: nat)
    requires Shape(p, s) && p.compress != 0.0 && 1 <= level < p.levels
  {
    && p.policy.pausing
    && s.promotedIn[level - 1] != 0
    && s.queues[level - 1] != []
    && s.now - p.Arrival(s.queues[level - 1][0].index) >= p.threshold
  }

  predicate Due(p: Setup, s: State, level: nat)
    requires Shape(p, s) && 1 <= level < p.levels
  {
    s.queues[level] != [] && s.now - s.queues[level][0].placed >= p.threshold
  }

  /** Promote due heads of one level; a pausing pass promotes at most one. */
  function AgeLevel(p: Setup, s: State, level: nat): (r: State)
    requires Shape(p, s) && 1 <= level < p.levels
    ensures Shape(p, r)
    decreases |s.queues[level]|
  {
    if Due(p, s, level) then
      PromoteShape(p, s, level);
      var t := Promote(p, s, level);
      if p.policy.pausing then t else AgeLevel(p, t, level)
    else s
  }

  /** Age levels `level` down to 1, bottom first. */
  function AgeDown(p: Setup, s: State, level: nat): (r: State)
    requires Shape(p, s) && p.compress != 0.0 && level < p.levels
    ensures Shape(p, r)
    decreases level
  {
    if level == 0 then s
    else AgeDown(p, if Paused(p, s, level) then s else AgeLevel(p, s, level), level - 1)
  }

  /** An aging pass, and the time of the next one. */
  function Age(p: Setup, s: State): (r: State)
    requires Shape(p, s) && p.compress != 0.0 && 1 <= p.levels
    ensures Shape(p, r)
  {
    AgeDown(p, s, p.levels - 1).(nextAging := s.now + p.interval)
  }

  datatype Event = Completing(at: real) | Arriving(at: real) | Aging(at: real) | Stuck

  function TimeOfArrival(p: Setup, s: State): Option<real>
    requires p.Valid() && Shape(p, s)
  {
    if s.next < |p.rows| then Some(p.Arrival(s.next)) else None
  }

  function TimeOfCompletion(s: State): Option<real> {
    if s.running == [] then None else Some(s.running[0].end)
  }

  function TimeOfAging(p: Setup, s: State): Option<real> {
    if s.queued != 0 && p.policy.aging then Some(s.nextAging) else None
  }

  predicate NotAfter(t: real, other: Option<real>) {
    other.None? || t <= other.value
  }

  /** The earliest pending event; completions win ties, then arrivals. */
  function NextEvent(p: Setup, s: State): Event
    requires p.Valid() && Shape(p, s)
  {
    var ta, tc, tg := TimeOfArrival(p, s), TimeOfCompletion(s), TimeOfAging(p, s);
    if tc.Some? && NotAfter(tc.value, ta) && NotAfter(tc.value, tg) then Completing(tc.value)
    else if ta.Some? && NotAfter(ta.value, tg) then Arriving(ta.value)
    else if tg.Some? then Aging(tg.value)
    else Stuck
  }

  function MoveTo(s: State, t: real): State {
    s.(now := t, clock := Max(s.clock, t))
  }

  /** What the chosen event does before dispatching. */
  function Handle(p: Setup, s: State): (r: State)
    requires p.Valid() && Shape(p, s) && NextEvent(p, s) != Stuck
    ensures Shape(p, r)
  {
    var e := NextEvent(p, s);
    var t := MoveTo(s, e.at);
    match e
    case Completing(_) => Complete(p, t)
    case Arriving(_) => ArriveShape(p, t); Arrive(p, t)
    case Aging(_) => Age(p, t)
  }

  lemma ArriveShape(p: Setup, s: State)
    requires p.Valid() && Shape(p, s) && s.next < |p.rows|
    ensures Shape(p, Arrive(p, s))
  {
    PlaceShape(p, s, p.routes[s.next].tier, Waiting(s.next, s.now, false));
  }

  /** One iteration of the event loop. */
  function Step(p: Setup, s: State): (r: State)
    requires p.Valid() && Shape(p, s) && NextEvent(p, s) != Stuck
    ensures Shape(p, r)
  {
    var t := Dispatch(p, Handle(p, s));
    if t.queued == 0 then t.(nextAging := t.now + p.interval) else t
  }
}
