/** The real-time aging bound: a message climbs at least one level every threshold plus interval. */
module SchedulerAging {
  import opened SchedulerModel
  import opened SchedulerInvariants
  import opened SchedulerLoop

  /** Plain aging is on. */
  ghost predicate PlainAging(p: Setup) {
    p.Valid() && p.policy.aging && !p.policy.pausing && 0.0 < p.threshold
  }

  ghost function Period(p: Setup): real {
    p.threshold + p.interval
  }

  ghost predicate Sorted(q: seq<Waiting>) {
    forall a, b :: 0 <= a < b < |q| ==> q[a].placed <= q[b].placed
  }

  /** A message at level `l` was placed there at most one period per level it climbed after it arrived. */
  ghost predicate Climbed(p: Setup, l: int, w: Waiting)
    requires PlainAging(p)
  {
    && w.index < |p.rows|
    && l <= p.routes[w.index].tier
    && w.placed <= p.Arrival(w.index) + (p.routes[w.index].tier - l) as real * Period(p)
  }

  ghost predicate Aged(p: Setup, s: State)
    requires PlainAging(p) && Shape(p, s)
  {
    && s.nextAging <= s.clock + p.interval
    && (forall l :: 0 <= l < p.levels ==> Sorted(s.queues[l]))
    && (forall l, k :: 0 <= l < p.levels && 0 <= k < |s.queues[l]| ==> InTime(p, s, l, s.queues[l][k]))
  }

  /** Each message of a loop-head state: placed in the past, climbed in time and not overdue at the
      next pass. */
  ghost predicate InTime(p: Setup, s: State, l: int, w: Waiting)
    requires PlainAging(p)
  {
    && Climbed(p, l, w)
    && w.placed <= s.clock
    && (1 <= l ==> s.nextAging - w.placed < Period(p))
  }

  // ----- dispatching only removes heads -----

  ghost predicate Suffixes(s: State, t: State) {
    && |t.queues| == |s.queues|
    && forall l :: 0 <= l < |s.queues| ==>
         |t.queues[l]| <= |s.queues[l]| && t.queues[l] == s.queues[l][|s.queues[l]| - |t.queues[l]|..]
  }

  lemma ServeSuffixes(p: Setup, s: State, l: nat)
    requires p.Valid() && Shape(p, s) && l < p.levels && s.queues[l] != []
    ensures Suffixes(s, Serve(p, s, l))
  {
  }

  lemma SuffixesJoin(s: State, t: State, u: State)
    requires Suffixes(s, t) && Suffixes(t, u)
    ensures Suffixes(s, u)
  {
    forall l | 0 <= l < |s.queues|
      ensures u.queues[l] == s.queues[l][|s.queues[l]| - |u.queues[l]|..]
    {
      var q := s.queues[l];
      assert t.queues[l] == q[|q| - |t.queues[l]|..];
      assert u.queues[l] == t.queues[l][|t.queues[l]| - |u.queues[l]|..];
    }
  }

  lemma {:induction false} DispatchSuffixes(p: Setup, s: State)
    requires p.Valid() && Shape(p, s)
    ensures Suffixes(s, Dispatch(p, s))
    ensures Dispatch(p, s).now == s.now && Dispatch(p, s).clock == s.clock
    ensures Dispatch(p, s).nextAging == s.nextAging
    decreases if s.idle > 0 then s.idle else 0
  {
    if s.idle > 0 && s.queued > 0 {
      ChoosePicks(p, s);
      var best := Choose(p, s).value;
      ServeShape(p, s, best);
      ServeSuffixes(p, s, best);
      var t := Serve(p, s, best);
      DispatchSuffixes(p, t);
      SuffixesJoin(s, t, Dispatch(p, t));
    }
  }

  lemma {:induction false} DispatchAged(p: Setup, s: State)
    requires PlainAging(p) && Shape(p, s) && Aged(p, s)
    ensures Aged(p, Dispatch(p, s))
  {
    DispatchSuffixes(p, s);
    var t := Dispatch(p, s);
    forall l, k | 0 <= l < p.levels && 0 <= k < |t.queues[l]|
      ensures InTime(p, t, l, t.queues[l][k])
    {
      var k' := |s.queues[l]| - |t.queues[l]| + k;
      assert t.queues[l][k] == s.queues[l][k'];
      assert InTime(p, s, l, s.queues[l][k']);
    }
  }

  // ----- a pass that is not behind the clock -----

  /** During a pass: levels above `level` are done, the others are due within this pass. */
  ghost predicate Passing(p: Setup, s: State, level: int)
    requires PlainAging(p) && Shape(p, s)
  {
    && (forall l :: 0 <= l < p.levels ==> Sorted(s.queues[l]))
    && (forall l, k :: 0 <= l < p.levels && 0 <= k < |s.queues[l]| ==> OnPass(p, s, level, l, s.queues[l][k]))
  }

  ghost predicate OnPass(p: Setup, s: State, level: int, l: int, w: Waiting)
    requires PlainAging(p)
  {
    && Climbed(p, l, w)
    && w.placed <= s.now
    && (1 <= l ==> s.now - w.placed < if level < l then p.threshold else Period(p))
  }

  lemma ClimbOne(p: Setup, s: State, l: int, w: Waiting)
    requires PlainAging(p) && 1 <= l && Climbed(p, l, w) && s.now - w.placed < Period(p)
    ensures Climbed(p, l - 1, Waiting(w.index, s.now, true))
  {
    var d := Period(p);
    var n := (p.routes[w.index].tier - l) as real;
    assert (p.routes[w.index].tier - (l - 1)) as real == n + 1.0;
    assert (n + 1.0) * d == n * d + d;
  }

  lemma PromotePassing(p: Setup, s: State, level: int)
    requires PlainAging(p) && Shape(p, s) && Passing(p, s, level) && 1 <= level < p.levels && s.queues[level] != []
    ensures Shape(p, Promote(p, s, level)) && Passing(p, Promote(p, s, level), level)
  {
    PromoteShape(p, s, level);
    var t := Promote(p, s, level);
    var w := s.queues[level][0];
    assert OnPass(p, s, level, level, w);
    ClimbOne(p, s, level, w);
    forall l, k | 0 <= l < p.levels && 0 <= k < |t.queues[l]|
      ensures OnPass(p, t, level, l, t.queues[l][k])
    {
      if l == level {
        assert t.queues[l][k] == s.queues[l][k + 1];
      } else if l == level - 1 && k == |s.queues[l]| {
      } else {
        assert t.queues[l][k] == s.queues[l][k];
      }
    }
    forall l | 0 <= l < p.levels
      ensures Sorted(t.queues[l])
    {
      assert Sorted(s.queues[l]);
      if l == level - 1 {
        assert forall k :: 0 <= k < |s.queues[l]| ==> OnPass(p, s, level, l, s.queues[l][k]);
      }
    }
  }

  /** Aging a level leaves in it only messages that are not due. */
  lemma {:induction false} AgeLevelPassing(p: Setup, s: State, level: int)
    requires PlainAging(p) && Shape(p, s) && Passing(p, s, level) && 1 <= level < p.levels
    ensures Passing(p, AgeLevel(p, s, level), level - 1)
    ensures AgeLevel(p, s, level).now == s.now
    decreases |s.queues[level]|
  {
    if Due(p, s, level) {
      PromotePassing(p, s, level);
      AgeLevelPassing(p, Promote(p, s, level), level);
    } else {
      forall l, k | 0 <= l < p.levels && 0 <= k < |s.queues[l]|
        ensures OnPass(p, s, level - 1, l, s.queues[l][k])
      {
        assert OnPass(p, s, level, l, s.queues[l][k]);
        if l == level {
          assert Sorted(s.queues[l]);
          assert s.queues[l][0].placed <= s.queues[l][k].placed;
        }
      }
    }
  }

  lemma {:induction false} AgeDownPassing(p: Setup, s: State, level: nat)
    requires PlainAging(p) && Shape(p, s) && Passing(p, s, level) && level < p.levels
    ensures Passing(p, AgeDown(p, s, level), 0)
    ensures AgeDown(p, s, level).now == s.now
    decreases level
  {
    if level > 0 {
      AgeLevelPassing(p, s, level);
      AgeDownPassing(p, AgeLevel(p, s, level), level - 1);
    }
  }

  // ----- a pass behind the clock promotes nothing -----

  /** Aging is on, plain or pausing. */
  ghost predicate AnyAging(p: Setup) {
    p.Valid() && p.policy.aging && 0.0 <= p.threshold
  }

  /** When the next pass is behind the clock, every waiting message was placed at the clock. */
  ghost predicate CaughtUp(s: State) {
    s.nextAging < s.clock ==>
      forall l, k :: 0 <= l < |s.queues| && 0 <= k < |s.queues[l]| ==> s.queues[l][k].placed == s.clock
  }

  lemma {:induction false} NoneDue(p: Setup, s: State, level: nat)
    requires p.Valid() && Shape(p, s) && level < p.levels
    requires forall l :: 1 <= l < p.levels ==> !Due(p, s, l)
    ensures AgeDown(p, s, level) == s
  {
    if level > 0 {
      NoneDue(p, s, level - 1);
    }
  }

  lemma BehindNoneDue(p: Setup, s: State, m: State)
    requires AnyAging(p) && Shape(p, s) && CaughtUp(s) && s.nextAging < s.clock
    requires Shape(p, m) && m.queues == s.queues && m.now == s.nextAging
    ensures forall l :: 1 <= l < p.levels ==> !Due(p, m, l)
  {
  }

  lemma BehindIsNoop(p: Setup, s: State)
    requires LoopInv(p, s) && AnyAging(p) && CaughtUp(s)
    requires NextEvent(p, s).Aging? && s.nextAging < s.clock
    ensures Step(p, s) == s.(now := s.nextAging, nextAging := s.nextAging + p.interval)
  {
    var m := MoveTo(s, s.nextAging);
    BehindNoneDue(p, s, m);
    NoneDue(p, m, p.levels - 1);
    assert Age(p, m) == m.(nextAging := s.nextAging + p.interval);
    AgingStep(p, s);
  }

  lemma AheadAfterPass(p: Setup, s: State)
    requires LoopInv(p, s) && AnyAging(p) && NextEvent(p, s).Aging? && s.clock <= s.nextAging
    ensures CaughtUp(Step(p, s))
  {
    AgingStep(p, s);
  }

  lemma CompletingCaughtUp(p: Setup, s: State)
    requires LoopInv(p, s) && AnyAging(p) && NextEvent(p, s).Completing?
    ensures CaughtUp(Handle(p, s))
  {
    if s.queued == 0 {
      AllEmpty(p, s);
    }
  }

  lemma ArrivingCaughtUp(p: Setup, s: State)
    requires LoopInv(p, s) && AnyAging(p) && NextEvent(p, s).Arriving?
    ensures CaughtUp(Handle(p, s))
  {
    var t := MoveTo(s, NextEvent(p, s).at);
    if s.queued == 0 {
      AllEmpty(p, s);
    }
  }

  lemma SuffixesCaughtUp(h: State, t: State)
    requires Suffixes(h, t) && t.clock == h.clock && t.nextAging == h.nextAging && CaughtUp(h)
    ensures CaughtUp(t)
  {
    forall l, k | 0 <= l < |t.queues| && 0 <= k < |t.queues[l]| && t.nextAging < t.clock
      ensures t.queues[l][k].placed == t.clock
    {
      assert t.queues[l][k] == h.queues[l][|h.queues[l]| - |t.queues[l]| + k];
    }
  }

  lemma RearmCaughtUp(p: Setup, t: State)
    requires AnyAging(p) && t.now == t.clock
    ensures CaughtUp(t.(nextAging := t.now + p.interval))
  {
  }

  lemma FinishCaughtUp(p: Setup, s: State)
    requires AnyAging(p) && Shape(p, s) && NextEvent(p, s) != Stuck
    requires CaughtUp(Handle(p, s)) && Handle(p, s).now == Handle(p, s).clock
    ensures CaughtUp(Step(p, s))
  {
    var t := Dispatch(p, Handle(p, s));
    DispatchSuffixes(p, Handle(p, s));
    SuffixesCaughtUp(Handle(p, s), t);
    RearmCaughtUp(p, t);
  }

  lemma StepCaughtUp(p: Setup, s: State)
    requires LoopInv(p, s) && AnyAging(p) && CaughtUp(s) && |s.finished| < |p.rows|
    ensures NextEvent(p, s) != Stuck && CaughtUp(Step(p, s))
  {
    NeverStuck(p, s);
    match NextEvent(p, s)
    case Completing(_) =>
      CompletingSound(p, s);
      CompletingCaughtUp(p, s);
      FinishCaughtUp(p, s);
    case Arriving(_) =>
      ArrivingSound(p, s);
      ArrivingCaughtUp(p, s);
      FinishCaughtUp(p, s);
    case Aging(_) =>
      if s.nextAging < s.clock {
        BehindIsNoop(p, s);
      } else {
        AheadAfterPass(p, s);
      }
  }

  lemma {:induction false} AlwaysCaughtUp(p: Setup, states: seq<State>, n: nat)
    requires AnyAging(p) && Trajectory(p, states) && n < |states|
    ensures LoopInv(p, states[n]) && CaughtUp(states[n])
  {
    TrajectorySound(p, states, n);
    if n > 0 {
      AlwaysCaughtUp(p, states, n - 1);
      assert Advances(p, states[n - 1], states[n]);
      StepCaughtUp(p, states[n - 1]);
    }
  }

  /** In every iteration, under plain or pausing aging, a catch-up pass at a time behind the clock
      changes nothing but the next aging time. */
  lemma CatchUpIsNoop(p: Setup, states: seq<State>, n: nat)
    requires AnyAging(p) && Trajectory(p, states) && n < |states| && Shape(p, states[n])
    requires NextEvent(p, states[n]).Aging? && states[n].nextAging < states[n].clock
    ensures var s := states[n];
            Step(p, s) == s.(now := s.nextAging, nextAging := s.nextAging + p.interval)
  {
    AlwaysCaughtUp(p, states, n);
    BehindIsNoop(p, states[n]);
  }

  lemma {:induction false} AllEmpty(p: Setup, s: State)
    requires Shape(p, s) && s.queued == 0
    ensures forall l :: 0 <= l < p.levels ==> s.queues[l] == []
  {
    SomeLevelHolds(s.queues);
  }

  // ----- every iteration -----

  lemma CatchUpAged(p: Setup, s: State)
    requires LoopInv(p, s) && PlainAging(p) && Aged(p, s) && CaughtUp(s)
    requires NextEvent(p, s).Aging? && s.nextAging < s.clock
    ensures Aged(p, Step(p, s))
  {
    BehindIsNoop(p, s);
    var u := Step(p, s);
    forall l, k | 0 <= l < p.levels && 0 <= k < |u.queues[l]|
      ensures InTime(p, u, l, u.queues[l][k])
    {
      assert InTime(p, s, l, s.queues[l][k]) && s.queues[l][k].placed == s.clock;
    }
  }

  lemma MovePassing(p: Setup, s: State)
    requires LoopInv(p, s) && PlainAging(p) && Aged(p, s)
    requires NextEvent(p, s).Aging? && s.clock <= s.nextAging
    ensures Passing(p, MoveTo(s, s.nextAging), p.levels - 1)
  {
    var m := MoveTo(s, s.nextAging);
    forall l, k | 0 <= l < p.levels && 0 <= k < |m.queues[l]|
      ensures OnPass(p, m, p.levels - 1, l, m.queues[l][k])
    {
      assert InTime(p, s, l, s.queues[l][k]);
    }
  }

  /** After a pass at the clock, nothing below the top has waited a whole threshold. */
  lemma PassedAged(p: Setup, d: State, u: State)
    requires PlainAging(p) && Shape(p, d) && Passing(p, d, 0) && Shape(p, u)
    requires u == d.(nextAging := d.now + p.interval) && d.now == d.clock
    ensures Aged(p, u)
  {
    forall l, k | 0 <= l < p.levels && 0 <= k < |u.queues[l]|
      ensures InTime(p, u, l, u.queues[l][k])
    {
      assert OnPass(p, d, 0, l, d.queues[l][k]);
    }
  }

  lemma AgePassAged(p: Setup, m: State)
    requires PlainAging(p) && Shape(p, m) && Passing(p, m, p.levels - 1) && m.now == m.clock
    ensures Aged(p, Age(p, m))
  {
    AgeDownPassing(p, m, p.levels - 1);
    AgeDownOnly(p, m, p.levels - 1);
    PassedAged(p, AgeDown(p, m, p.levels - 1), Age(p, m));
  }

  lemma PassAged(p: Setup, s: State)
    requires LoopInv(p, s) && PlainAging(p) && Aged(p, s)
    requires NextEvent(p, s).Aging? && s.clock <= s.nextAging
    ensures Aged(p, Step(p, s))
  {
    MovePassing(p, s);
    AgePassAged(p, MoveTo(s, s.nextAging));
    AgingStep(p, s);
  }

  lemma AgingAged(p: Setup, s: State)
    requires LoopInv(p, s) && PlainAging(p) && Aged(p, s) && CaughtUp(s) && NextEvent(p, s).Aging?
    ensures Aged(p, Step(p, s))
  {
    if s.nextAging < s.clock {
      CatchUpAged(p, s);
    } else {
      PassAged(p, s);
    }
  }

  lemma MoveAged(p: Setup, s: State)
    requires LoopInv(p, s) && PlainAging(p) && Aged(p, s)
    requires NextEvent(p, s).Completing? || NextEvent(p, s).Arriving?
    ensures Aged(p, MoveTo(s, NextEvent(p, s).at))
    ensures MoveTo(s, NextEvent(p, s).at).now == MoveTo(s, NextEvent(p, s).at).clock
    ensures s.queued != 0 ==> MoveTo(s, NextEvent(p, s).at).clock <= s.nextAging
  {
    var t := MoveTo(s, NextEvent(p, s).at);
    if s.queued == 0 {
      AllEmpty(p, s);
    }
    forall l, k | 0 <= l < p.levels && 0 <= k < |t.queues[l]|
      ensures InTime(p, t, l, t.queues[l][k])
    {
      assert InTime(p, s, l, s.queues[l][k]);
    }
  }

  lemma CompletingAged(p: Setup, s: State)
    requires LoopInv(p, s) && PlainAging(p) && Aged(p, s) && NextEvent(p, s).Completing?
    ensures Aged(p, Handle(p, s)) && Handle(p, s).now == Handle(p, s).clock
  {
    MoveAged(p, s);
    var t := MoveTo(s, NextEvent(p, s).at);
    var u := Handle(p, s);
    forall l, k | 0 <= l < p.levels && 0 <= k < |u.queues[l]|
      ensures InTime(p, u, l, u.queues[l][k])
    {
      assert InTime(p, t, l, t.queues[l][k]);
    }
  }

  /** A message placed now at its own tier is in time. */
  lemma NewInTime(p: Setup, t: State, w: Waiting)
    requires PlainAging(p) && t.nextAging <= t.clock + p.interval && w.index < |p.rows|
    requires w.placed == t.clock == p.Arrival(w.index)
    ensures InTime(p, t, p.routes[w.index].tier, w)
  {
  }

  lemma PlacedAged(p: Setup, t: State, u: State, tier: nat, w: Waiting)
    requires PlainAging(p) && Shape(p, t) && Shape(p, u) && Aged(p, t) && tier < p.levels
    requires u.queues == t.queues[tier := t.queues[tier] + [w]] && u.clock == t.clock && u.nextAging == t.nextAging
    requires w.placed == t.clock && InTime(p, t, tier, w)
    ensures Aged(p, u)
  {
    forall l, k | 0 <= l < p.levels && 0 <= k < |u.queues[l]|
      ensures InTime(p, u, l, u.queues[l][k])
    {
      if l == tier && k == |t.queues[l]| {
        assert u.queues[l][k] == w;
      } else {
        assert u.queues[l][k] == t.queues[l][k];
        assert InTime(p, t, l, t.queues[l][k]);
      }
    }
    forall l | 0 <= l < p.levels
      ensures Sorted(u.queues[l])
    {
      assert Sorted(t.queues[l]);
      assert forall k :: 0 <= k < |t.queues[l]| ==> InTime(p, t, l, t.queues[l][k]);
    }
  }

  lemma ArrivingAged(p: Setup, s: State)
    requires LoopInv(p, s) && PlainAging(p) && Aged(p, s) && NextEvent(p, s).Arriving?
    ensures Aged(p, Handle(p, s)) && Handle(p, s).now == Handle(p, s).clock
  {
    MoveAged(p, s);
    var t := MoveTo(s, NextEvent(p, s).at);
    var w := Waiting(s.next, t.now, false);
    NewInTime(p, t, w);
    ArriveShape(p, t);
    PlacedAged(p, t, Handle(p, s), p.routes[s.next].tier, w);
  }

  lemma FinishAged(p: Setup, s: State)
    requires PlainAging(p) && Shape(p, s) && NextEvent(p, s) != Stuck
    requires Aged(p, Handle(p, s)) && Handle(p, s).now == Handle(p, s).clock
    ensures Aged(p, Step(p, s))
  {
    var h := Handle(p, s);
    DispatchAged(p, h);
    DispatchSuffixes(p, h);
    if Dispatch(p, h).queued == 0 {
      AllEmpty(p, Dispatch(p, h));
    }
  }

  lemma StepAged(p: Setup, s: State)
    requires LoopInv(p, s) && PlainAging(p) && Aged(p, s) && CaughtUp(s) && |s.finished| < |p.rows|
    ensures NextEvent(p, s) != Stuck && Aged(p, Step(p, s))
  {
    NeverStuck(p, s);
    match NextEvent(p, s)
    case Completing(_) =>
      CompletingAged(p, s);
      FinishAged(p, s);
    case Arriving(_) =>
      ArrivingAged(p, s);
      FinishAged(p, s);
    case Aging(_) =>
      AgingAged(p, s);
  }

  // ----- the bound -----

  lemma {:induction false} AlwaysAged(p: Setup, states: seq<State>, n: nat)
    requires PlainAging(p) && Trajectory(p, states) && n < |states|
    ensures LoopInv(p, states[n]) && Aged(p, states[n])
  {
    TrajectorySound(p, states, n);
    if n > 0 {
      AlwaysAged(p, states, n - 1);
      AlwaysCaughtUp(p, states, n - 1);
      assert Advances(p, states[n - 1], states[n]);
      StepAged(p, states[n - 1]);
    }
  }

  lemma WholePeriods(x: real, d: real, n: int)
    requires 0.0 < d && x < n as real * d
    ensures (x / d).Floor < n
  {
    assert (n as real - x / d) * d == n as real * d - x > 0.0;
  }

  /** Real-time aging bound: at every time `t` from the clock of a reachable state until its next
      event, a message still waiting is at its routed level less one per whole period since it
      arrived, or already at the top. */
  lemma AgingBound(p: Setup, states: seq<State>, n: nat, l: nat, k: nat, t: real)
    requires PlainAging(p) && Trajectory(p, states) && n < |states| && Shape(p, states[n])
    requires l < p.levels && k < |states[n].queues[l]|
    requires states[n].clock <= t && (t <= states[n].clock || t <= states[n].nextAging)
    ensures var w := states[n].queues[l][k];
            l == 0 || l <= p.routes[w.index].tier - ((t - p.Arrival(w.index)) / Period(p)).Floor
  {
    AlwaysAged(p, states, n);
    AlwaysCaughtUp(p, states, n);
    BoundFromInTime(p, states[n], l, states[n].queues[l][k], t);
  }

  lemma BoundFromInTime(p: Setup, s: State, l: nat, w: Waiting, t: real)
    requires PlainAging(p) && InTime(p, s, l, w) && (s.nextAging < s.clock ==> w.placed == s.clock)
    requires s.clock <= t && (t <= s.clock || t <= s.nextAging)
    ensures l == 0 || l <= p.routes[w.index].tier - ((t - p.Arrival(w.index)) / Period(p)).Floor
  {
    if l > 0 {
      var m := p.routes[w.index].tier - l;
      assert t - w.placed < Period(p);
      assert (m + 1) as real * Period(p) == m as real * Period(p) + Period(p);
      WholePeriods(t - p.Arrival(w.index), Period(p), m + 1);
    }
  }
}
