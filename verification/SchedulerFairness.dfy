/** Worker-time share: bounds on how far two backlogged levels drift apart, and on how often other
    levels are served while one waits, over every run of the simulator. */
module SchedulerFairness {
  import opened SchedulerModel
  import opened SchedulerInvariants

  /** A run: its states and the action taken between each two of them. */
  datatype Run = Run(states: seq<State>, actions: seq<Action>)

  /** From a well-formed state, an enabled action at a time. That every state is then well formed is a
      consequence. */
  ghost predicate IsRun(p: Setup, r: Run): (yes: bool)
    ensures yes ==> && p.Valid() && |r.states| == |r.actions| + 1
                    && (forall k :: 0 <= k < |r.states| ==> Shape(p, r.states[k]))
                    && (forall k :: 0 <= k < |r.actions| ==> Taken(p, r, k))
  {
    && p.Valid()
    && |r.states| == |r.actions| + 1
    && Shape(p, r.states[0])
    && (forall k :: 0 <= k < |r.actions| ==> Follows(p, r, k))
    && (RunShaped(p, r); true)
  }

  ghost predicate Follows(p: Setup, r: Run, k: nat)
    requires p.Valid() && k < |r.actions| && k + 1 < |r.states|
  {
    Shape(p, r.states[k]) ==> Taken(p, r, k)
  }

  lemma RunShaped(p: Setup, r: Run)
    requires p.Valid() && |r.states| == |r.actions| + 1 && Shape(p, r.states[0])
    requires forall k :: 0 <= k < |r.actions| ==> Follows(p, r, k)
    ensures forall k :: 0 <= k < |r.states| ==> Shape(p, r.states[k])
    ensures forall k :: 0 <= k < |r.actions| ==> Taken(p, r, k)
  {
    forall k | 0 <= k < |r.states|
      ensures Shape(p, r.states[k])
    {
      StateShaped(p, r, k);
    }
    forall k | 0 <= k < |r.actions|
      ensures Taken(p, r, k)
    {
      assert Follows(p, r, k);
    }
  }

  lemma {:induction false} StateShaped(p: Setup, r: Run, n: nat)
    requires p.Valid() && |r.states| == |r.actions| + 1 && Shape(p, r.states[0]) && n < |r.states|
    requires forall k :: 0 <= k < |r.actions| ==> Follows(p, r, k)
    ensures Shape(p, r.states[n])
  {
    if n > 0 {
      StateShaped(p, r, n - 1);
      assert Follows(p, r, n - 1);
    }
  }

  ghost predicate Taken(p: Setup, r: Run, k: nat)
    requires p.Valid() && k < |r.actions| && k + 1 < |r.states| && Shape(p, r.states[k])
  {
    Enabled(p, r.states[k], r.actions[k]) && r.states[k + 1] == Do(p, r.states[k], r.actions[k])
  }

  /** Every estimate and duration is at most `c`, which is at least the minimum charge of 1 ms. */
  ghost predicate CostsWithin(p: Setup, c: real) {
    && 1.0 <= c
    && (forall i :: 0 <= i < |p.routes| ==> p.routes[i].estimate <= c)
    && (forall i :: 0 <= i < |p.rows| ==> p.rows[i].durationMs <= c)
  }

  // ----- the clocks stay close to their floor -----

  ghost predicate Virtual(p: Setup, c: real, s: State)
    requires p.Valid() && p.Weighted() && Shape(p, s)
  {
    && (forall l :: 0 <= l < p.levels && s.queues[l] != [] ==> s.vfloor <= s.vclock[l])
    && (forall l :: 0 <= l < p.levels ==> s.vclock[l] <= s.vfloor + c / p.policy.weights[l])
    && (forall l :: 0 <= l < p.levels ==> 0.0 <= s.levelCost[l] <= c)
  }

  lemma Divide(a: real, b: real, w: real)
    requires a <= b && 0.0 < w
    ensures a / w <= b / w
  {
    assert b / w - a / w == (b - a) / w >= 0.0;
  }

  lemma ChargeWithin(p: Setup, c: real, s: State, l: nat, i: nat)
    requires p.Valid() && p.Weighted() && CostsWithin(p, c) && Shape(p, s) && Virtual(p, c, s)
    requires l < p.levels && i < |p.rows|
    ensures 1.0 <= Charge(p, s, l, i) <= c
  {
  }

  lemma ServeVirtual(p: Setup, c: real, s: State, l: nat)
    requires p.Valid() && p.Weighted() && CostsWithin(p, c) && Shape(p, s) && Virtual(p, c, s)
    requires IsChoice(p, s, l)
    ensures Shape(p, Serve(p, s, l)) && Virtual(p, c, Serve(p, s, l))
    ensures s.vfloor <= Serve(p, s, l).vfloor
  {
    ServeShape(p, s, l);
    var i := s.queues[l][0].index;
    ChargeWithin(p, c, s, l, i);
    Divide(0.0, Charge(p, s, l, i), p.policy.weights[l]);
    Divide(Charge(p, s, l, i), c, p.policy.weights[l]);
    var t := Serve(p, s, l);
    forall m | 0 <= m < p.levels && t.queues[m] != []
      ensures t.vfloor <= t.vclock[m]
    {
      assert s.queues[m] != [];
    }
  }

  lemma PlaceVirtual(p: Setup, c: real, s: State, l: nat, w: Waiting)
    requires p.Valid() && p.Weighted() && CostsWithin(p, c) && Shape(p, s) && Virtual(p, c, s)
    requires l < p.levels && w.index < |p.rows|
    ensures Shape(p, Place(p, s, l, w).(queued := s.queued + 1))
    ensures Virtual(p, c, Place(p, s, l, w).(queued := s.queued + 1))
  {
    PlaceShape(p, s, l, w);
    Divide(0.0, c, p.policy.weights[l]);
  }

  lemma DropVirtual(p: Setup, c: real, s: State, l: nat, t: State)
    requires p.Valid() && p.Weighted() && Shape(p, s) && Virtual(p, c, s) && l < p.levels && s.queues[l] != []
    requires t == Drop(p, s, l).(queued := s.queued - 1) && Shape(p, t)
    ensures Virtual(p, c, t)
  {
  }

  lemma PromoteVirtual(p: Setup, c: real, s: State, l: nat)
    requires p.Valid() && p.Weighted() && CostsWithin(p, c) && Shape(p, s) && Virtual(p, c, s)
    requires 1 <= l < p.levels && s.queues[l] != []
    ensures Shape(p, Promote(p, s, l)) && Virtual(p, c, Promote(p, s, l))
  {
    PlaceDropped(p, s, l);
    PromoteShape(p, s, l);
    var t := Drop(p, s, l).(queued := s.queued - 1);
    DropVirtual(p, c, s, l, t);
    PlaceVirtual(p, c, t, l - 1, Waiting(s.queues[l][0].index, s.now, true));
  }

  lemma CompleteVirtual(p: Setup, c: real, s: State)
    requires p.Valid() && p.Weighted() && CostsWithin(p, c) && Shape(p, s) && Virtual(p, c, s)
    requires s.running != []
    ensures Virtual(p, c, Complete(p, s))
  {
  }

  /** Every action keeps the clocks within one charge of the floor and never lowers the floor. */
  lemma DoVirtual(p: Setup, c: real, s: State, a: Action)
    requires p.Valid() && p.Weighted() && CostsWithin(p, c) && Shape(p, s) && Virtual(p, c, s)
    requires Enabled(p, s, a)
    ensures Virtual(p, c, Do(p, s, a))
    ensures s.vfloor <= Do(p, s, a).vfloor
  {
    match a
    case Move(_) =>
    case Completes => CompleteVirtual(p, c, s);
    case Arrives => PlaceVirtual(p, c, s, p.routes[s.next].tier, Waiting(s.next, s.now, false));
    case Serves(l) => ServeVirtual(p, c, s, l);
    case Promotes(l) => PromoteVirtual(p, c, s, l);
    case Rearms(_) =>
  }

  lemma {:induction false} RunVirtual(p: Setup, c: real, r: Run, k: nat)
    requires IsRun(p, r) && r.states[0] == Init(p) && p.Weighted() && CostsWithin(p, c) && k < |r.states|
    ensures Virtual(p, c, r.states[k])
  {
    if k == 0 {
      forall l | 0 <= l < p.levels
        ensures 0.0 <= c / p.policy.weights[l]
      {
        Divide(0.0, c, p.policy.weights[l]);
      }
    } else {
      RunVirtual(p, c, r, k - 1);
      assert Taken(p, r, k - 1);
      DoVirtual(p, c, r.states[k - 1], r.actions[k - 1]);
    }
  }

  // ----- what a stretch of a run charges -----

  ghost predicate Dispatches(a: Action, l: nat) {
    a.Serves? && a.level == l
  }

  /** Worker time charged to level `l` by actions `a` up to `b`. */
  ghost function Charged(p: Setup, r: Run, l: nat, a: nat, b: nat): real
    requires IsRun(p, r) && l < p.levels && a <= b <= |r.actions|
  {
    if a == b then 0.0
    else
      assert Taken(p, r, b - 1);
      Charged(p, r, l, a, b - 1) +
      if Dispatches(r.actions[b - 1], l)
      then Charge(p, r.states[b - 1], l, r.states[b - 1].queues[l][0].index) else 0.0
  }

  /** How often actions `a` up to `b` serve level `l`. */
  ghost function Services(r: Run, l: nat, a: nat, b: nat): nat
    requires a <= b <= |r.actions|
  {
    if a == b then 0 else Services(r, l, a, b - 1) + if Dispatches(r.actions[b - 1], l) then 1 else 0
  }

  ghost predicate Backlogged(p: Setup, r: Run, l: nat, a: nat, b: nat)
    requires IsRun(p, r) && l < p.levels && a <= b < |r.states|
  {
    forall k :: a <= k <= b ==> r.states[k].queues[l] != []
  }

  /** While a level is backlogged its clock moves exactly by what it is charged. */
  lemma {:induction false} ClockIsCharge(p: Setup, r: Run, l: nat, a: nat, b: nat)
    requires IsRun(p, r) && p.Weighted() && l < p.levels && a <= b < |r.states| && Backlogged(p, r, l, a, b)
    ensures Charged(p, r, l, a, b) / p.policy.weights[l] == r.states[b].vclock[l] - r.states[a].vclock[l]
  {
    if a < b {
      ClockIsCharge(p, r, l, a, b - 1);
      assert Taken(p, r, b - 1);
      assert r.states[b - 1].queues[l] != [];
      ChargeStep(p, r.states[b - 1], r.actions[b - 1], l, Charged(p, r, l, a, b - 1), r.states[a].vclock[l]);
    }
  }

  /** One more action keeps a clock at its start plus the charges `x` so far. */
  lemma ChargeStep(p: Setup, s: State, a: Action, l: nat, x: real, start: real)
    requires p.Valid() && p.Weighted() && Shape(p, s) && Enabled(p, s, a) && l < p.levels && s.queues[l] != []
    requires x / p.policy.weights[l] == s.vclock[l] - start
    ensures |Do(p, s, a).vclock| > l
    ensures var cost := if Dispatches(a, l) then Charge(p, s, l, s.queues[l][0].index) else 0.0;
            (x + cost) / p.policy.weights[l] == Do(p, s, a).vclock[l] - start
  {
    ClockStep(p, s, a, l);
    Split(x, if Dispatches(a, l) then Charge(p, s, l, s.queues[l][0].index) else 0.0, p.policy.weights[l]);
  }

  /** A level that holds work moves its clock only when it is served, by its charge over its weight. */
  lemma ClockStep(p: Setup, s: State, a: Action, l: nat)
    requires p.Valid() && p.Weighted() && Shape(p, s) && Enabled(p, s, a) && l < p.levels && s.queues[l] != []
    ensures |Do(p, s, a).vclock| > l
    ensures Do(p, s, a).vclock[l] == s.vclock[l] +
              (if Dispatches(a, l) then Charge(p, s, l, s.queues[l][0].index) else 0.0) / p.policy.weights[l]
  {
  }

  lemma Split(x: real, y: real, w: real)
    requires 0.0 < w
    ensures (x + y) / w == x / w + y / w
  {
  }

  ghost function Abs(x: real): real {
    if x < 0.0 then -x else x
  }

  /** Weighted fairness: on any stretch of any run where two levels always hold work, the worker
      time they are charged per unit of weight differs by at most one largest charge each. */
  lemma {:induction false} WeightedFairness(p: Setup, c: real, r: Run, i: nat, j: nat, a: nat, b: nat)
    requires IsRun(p, r) && r.states[0] == Init(p) && p.Weighted() && CostsWithin(p, c)
    requires i < p.levels && j < p.levels && a <= b < |r.states|
    requires Backlogged(p, r, i, a, b) && Backlogged(p, r, j, a, b)
    ensures var w := p.policy.weights;
            Abs(Charged(p, r, i, a, b) / w[i] - Charged(p, r, j, a, b) / w[j]) <= c / w[i] + c / w[j]
  {
    ClockIsCharge(p, r, i, a, b);
    ClockIsCharge(p, r, j, a, b);
    RunVirtual(p, c, r, a);
    RunVirtual(p, c, r, b);
    assert r.states[a].queues[i] != [] && r.states[a].queues[j] != [];
    assert r.states[b].queues[i] != [] && r.states[b].queues[j] != [];
  }

  // ----- bounded bypass -----

  lemma {:induction false} FloorMonotone(p: Setup, c: real, r: Run, a: nat, b: nat)
    requires IsRun(p, r) && r.states[0] == Init(p) && p.Weighted() && CostsWithin(p, c)
    requires a <= b < |r.states|
    ensures r.states[a].vfloor <= r.states[b].vfloor
  {
    if a < b {
      FloorMonotone(p, c, r, a, b - 1);
      RunVirtual(p, c, r, b - 1);
      assert Taken(p, r, b - 1);
      DoVirtual(p, c, r.states[b - 1], r.actions[b - 1]);
    }
  }

  /** No action lowers a clock. */
  lemma ClockMonotone(p: Setup, c: real, s: State, a: Action, l: nat)
    requires p.Valid() && p.Weighted() && CostsWithin(p, c) && Shape(p, s) && Virtual(p, c, s)
    requires Enabled(p, s, a) && l < p.levels
    ensures s.vclock[l] <= Do(p, s, a).vclock[l]
    ensures Dispatches(a, l) ==> s.vclock[l] + 1.0 / p.policy.weights[l] <= Do(p, s, a).vclock[l]
    ensures s.queues[l] != [] && !Dispatches(a, l) ==> Do(p, s, a).vclock[l] == s.vclock[l]
  {
    if a.Serves? {
      var i := s.queues[a.level][0].index;
      ChargeWithin(p, c, s, a.level, i);
      Divide(1.0, Charge(p, s, a.level, i), p.policy.weights[a.level]);
      Divide(0.0, 1.0, p.policy.weights[a.level]);
    }
  }

  /** A backlogged level that is not served keeps its clock. */
  lemma {:induction false} UnservedClock(p: Setup, c: real, r: Run, i: nat, a: nat, b: nat)
    requires IsRun(p, r) && r.states[0] == Init(p) && p.Weighted() && CostsWithin(p, c)
    requires i < p.levels && a <= b < |r.states| && Backlogged(p, r, i, a, b) && Services(r, i, a, b) == 0
    ensures r.states[b].vclock[i] == r.states[a].vclock[i]
  {
    if a < b {
      UnservedClock(p, c, r, i, a, b - 1);
      RunVirtual(p, c, r, b - 1);
      assert Taken(p, r, b - 1);
      assert r.states[b - 1].queues[i] != [];
      ClockMonotone(p, c, r.states[b - 1], r.actions[b - 1], i);
    }
  }

  /** A service of `l` while `i` waits is taken at a clock between the floor and the waiting level's. */
  lemma ServicePushes(p: Setup, c: real, s: State, a: Action, i: nat, l: nat, t: State)
    requires p.Valid() && p.Weighted() && CostsWithin(p, c) && Shape(p, s) && Virtual(p, c, s)
    requires Enabled(p, s, a) && i < p.levels && l < p.levels && s.queues[i] != [] && t == Do(p, s, a)
    ensures s.vclock[l] <= t.vclock[l]
    ensures Dispatches(a, l) ==>
              s.vfloor <= s.vclock[l] <= s.vclock[i] && s.vclock[l] + 1.0 / p.policy.weights[l] <= t.vclock[l]
  {
    ClockMonotone(p, c, s, a, l);
  }

  /** Each service of `l` pushes its clock one minimum charge beyond the floor the wait began at,
      and was taken while that clock was at most the waiting level's. */
  lemma {:induction false} ServicesPush(p: Setup, c: real, r: Run, i: nat, l: nat, a: nat, b: nat)
    requires IsRun(p, r) && r.states[0] == Init(p) && p.Weighted() && CostsWithin(p, c)
    requires i < p.levels && l < p.levels && a <= b < |r.states|
    requires Backlogged(p, r, i, a, b) && Services(r, i, a, b) == 0
    ensures var k, f, w := Services(r, l, a, b), r.states[a].vfloor, p.policy.weights[l];
            k > 0 ==> && Pushed(f, k, w) <= r.states[b].vclock[l]
                      && Pushed(f, k - 1, w) <= r.states[a].vclock[i]
  {
    if a < b {
      ServicesPush(p, c, r, i, l, a, b - 1);
      RunVirtual(p, c, r, b - 1);
      UnservedClock(p, c, r, i, a, b - 1);
      FloorMonotone(p, c, r, a, b - 1);
      assert Taken(p, r, b - 1);
      assert r.states[b - 1].queues[i] != [];
      ServicePushes(p, c, r.states[b - 1], r.actions[b - 1], i, l, r.states[b]);
      PushedMore(r.states[a].vfloor, Services(r, l, a, b - 1), p.policy.weights[l]);
    }
  }

  /** A clock that took k minimum charges since it read f. */
  ghost function Pushed(f: real, k: int, w: real): real
    requires w != 0.0
  {
    f + k as real / w
  }

  lemma PushedMore(f: real, k: nat, w: real)
    requires 0.0 < w
    ensures Pushed(f, k + 1, w) == Pushed(f, k, w) + 1.0 / w
    ensures Pushed(f, 0, w) == f
  {
    Split(k as real, 1.0, w);
  }

  /** One more than the charges of weight `w` that fit in one largest charge of weight `v`. */
  ghost function BypassLimit(w: real, c: real, v: real): int
    requires v != 0.0
  {
    (w * c / v).Floor + 1
  }

  /** Bounded bypass: while a level holds work and is not served, every other level is dispatched at
      most floor(w_l * c / w_i) + 1 times, even if it empties and refills. */
  lemma {:induction false} BoundedBypass(p: Setup, c: real, r: Run, i: nat, l: nat, a: nat, b: nat)
    requires IsRun(p, r) && r.states[0] == Init(p) && p.Weighted() && CostsWithin(p, c)
    requires i < p.levels && l < p.levels && a <= b < |r.states|
    requires Backlogged(p, r, i, a, b) && Services(r, i, a, b) == 0
    ensures Services(r, l, a, b) <= BypassLimit(p.policy.weights[l], c, p.policy.weights[i])
  {
    ServicesPush(p, c, r, i, l, a, b);
    RunVirtual(p, c, r, a);
    BypassBound(Services(r, l, a, b), c, p.policy.weights[l], p.policy.weights[i]);
  }

  lemma BypassBound(k: nat, c: real, w: real, v: real)
    requires 0.0 < w && 0.0 < v && 0.0 <= c
    requires k > 0 ==> (k - 1) as real / w <= c / v
    ensures k <= BypassLimit(w, c, v)
  {
    var x := w * c / v;
    if k > 0 {
      CrossMultiply((k - 1) as real, c, w, v);
      FloorAbove(k - 1, x);
    } else {
      Divide(0.0, w * c, v);
      FloorAbove(0, x);
    }
    assert BypassLimit(w, c, v) == x.Floor + 1;
  }

  lemma FloorAbove(n: int, x: real)
    requires n as real <= x
    ensures n <= x.Floor
  {
    assert x < x.Floor as real + 1.0;
    assert n as real < (x.Floor + 1) as real;
  }

  lemma CrossMultiply(x: real, c: real, w: real, v: real)
    requires 0.0 < w && 0.0 < v && x / w <= c / v
    ensures x <= w * c / v
  {
    assert x == (x / w) * w;
    assert (x / w) * w <= (c / v) * w;
    assert (c / v) * w == w * c / v;
  }
}
