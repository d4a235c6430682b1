/** The event loop as a run of small actions, so that what holds on every run holds of it. */
module SchedulerRuns {
  import opened SchedulerModel
  import opened SchedulerInvariants
  import opened SchedulerLoop
  import opened SchedulerFairness

  ghost function Join(x: Run, y: Run): Run
    requires y.states != []
  {
    Run(x.states + y.states[1..], x.actions + y.actions)
  }

  ghost function Last(r: Run): State
    requires r.states != []
  {
    r.states[|r.states| - 1]
  }

  ghost predicate Connects(p: Setup, r: Run, s: State, t: State) {
    IsRun(p, r) && r.states[0] == s && Last(r) == t
  }

  lemma JoinConnects(p: Setup, x: Run, y: Run, s: State, t: State, u: State)
    requires Connects(p, x, s, t) && Connects(p, y, t, u)
    ensures Connects(p, Join(x, y), s, u)
  {
    var r := Join(x, y);
    var n := |x.actions|;
    forall k | 0 <= k < |r.states|
      ensures r.states[k] == if k <= n then x.states[k] else y.states[k - n]
      ensures Shape(p, r.states[k])
    {
    }
    assert x.states[n] == y.states[0];
    forall k | 0 <= k < |r.actions|
      ensures Taken(p, r, k)
    {
      if k < n {
        assert Taken(p, x, k);
      } else {
        assert Taken(p, y, k - n);
        assert r.states[k] == y.states[k - n] && r.states[k + 1] == y.states[k - n + 1];
      }
    }
  }

  lemma Single(p: Setup, s: State, a: Action) returns (r: Run)
    requires p.Valid() && Shape(p, s) && Enabled(p, s, a)
    ensures Connects(p, r, s, Do(p, s, a))
  {
    r := Run([s, Do(p, s, a)], [a]);
    assert Taken(p, r, 0);
  }

  lemma Still(p: Setup, s: State) returns (r: Run)
    requires p.Valid() && Shape(p, s)
    ensures Connects(p, r, s, s) && r.states == [s]
  {
    r := Run([s], []);
  }

  lemma DispatchRun(p: Setup, s: State) returns (r: Run)
    requires p.Valid() && Shape(p, s)
    ensures Connects(p, r, s, Dispatch(p, s))
    decreases if s.idle > 0 then s.idle else 0
  {
    if s.idle > 0 && s.queued > 0 {
      ChoosePicks(p, s);
      var best := Choose(p, s).value;
      var x := Single(p, s, Serves(best));
      ServeShape(p, s, best);
      var t := Serve(p, s, best);
      var y := DispatchRun(p, t);
      JoinConnects(p, x, y, s, t, Dispatch(p, t));
      r := Join(x, y);
    } else {
      r := Still(p, s);
    }
  }

  lemma AgeLevelRun(p: Setup, s: State, level: nat) returns (r: Run)
    requires p.Valid() && Shape(p, s) && 1 <= level < p.levels
    ensures Connects(p, r, s, AgeLevel(p, s, level))
    decreases |s.queues[level]|
  {
    if Due(p, s, level) {
      r := Single(p, s, Promotes(level));
      PromoteShape(p, s, level);
      var t := Promote(p, s, level);
      if !p.policy.pausing {
        var y := AgeLevelRun(p, t, level);
        JoinConnects(p, r, y, s, t, AgeLevel(p, t, level));
        r := Join(r, y);
      }
    } else {
      r := Still(p, s);
    }
  }

  lemma AgeDownRun(p: Setup, s: State, level: nat) returns (r: Run)
    requires p.Valid() && Shape(p, s) && level < p.levels
    ensures Connects(p, r, s, AgeDown(p, s, level))
    decreases level
  {
    r := Still(p, s);
    if level > 0 {
      var t := if Paused(p, s, level) then s else AgeLevel(p, s, level);
      if !Paused(p, s, level) {
        r := AgeLevelRun(p, s, level);
      }
      var y := AgeDownRun(p, t, level - 1);
      JoinConnects(p, r, y, s, t, AgeDown(p, t, level - 1));
      r := Join(r, y);
    }
  }

  lemma AgeRun(p: Setup, s: State) returns (r: Run)
    requires p.Valid() && Shape(p, s)
    ensures Connects(p, r, s, Age(p, s))
  {
    var u := AgeDown(p, s, p.levels - 1);
    var d := AgeDownRun(p, s, p.levels - 1);
    var z := Single(p, u, Rearms(s.now + p.interval));
    JoinConnects(p, d, z, s, u, Age(p, s));
    r := Join(d, z);
  }

  lemma HandleRun(p: Setup, s: State) returns (r: Run)
    requires p.Valid() && Shape(p, s) && NextEvent(p, s) != Stuck
    ensures Connects(p, r, s, Handle(p, s))
  {
    var e := NextEvent(p, s);
    var t := MoveTo(s, e.at);
    var x := Single(p, s, Move(e.at));
    var y;
    match e {
      case Completing(_) => y := Single(p, t, Completes);
      case Arriving(_) => y := Single(p, t, Arrives);
      case Aging(_) => y := AgeRun(p, t);
    }
    JoinConnects(p, x, y, s, t, Handle(p, s));
    r := Join(x, y);
  }

  /** One iteration of the loop is a run of actions. */
  lemma StepRun(p: Setup, s: State) returns (r: Run)
    requires p.Valid() && Shape(p, s) && NextEvent(p, s) != Stuck
    ensures Connects(p, r, s, Step(p, s))
  {
    var h := Handle(p, s);
    var x := HandleRun(p, s);
    var y := DispatchRun(p, h);
    JoinConnects(p, x, y, s, h, Dispatch(p, h));
    r := Join(x, y);
    var d := Dispatch(p, h);
    if d.queued == 0 {
      var z := Single(p, d, Rearms(d.now + p.interval));
      JoinConnects(p, r, z, s, d, Step(p, s));
      r := Join(r, z);
    }
  }

  /** One iteration of the loop, as a relation. */
  ghost function Iteration(p: Setup): (State, State) -> bool {
    (s, t) => p.Valid() && Advances(p, s, t)
  }

  /** The marks lead from the first state to the last, each related to the next. */
  ghost predicate Marked(related: (State, State) -> bool, states: seq<State>, marks: seq<nat>) {
    && marks != [] && marks[0] == 0 && marks[|marks| - 1] + 1 == |states|
    && (forall k :: 0 <= k < |marks| ==> marks[k] < |states|)
    && (forall k :: 0 < k < |marks| ==>
          marks[k - 1] <= marks[k] && related(states[marks[k - 1]], states[marks[k]]))
  }

  ghost function Later(marks: seq<nat>, n: nat): (later: seq<nat>)
    ensures |later| == |marks| && forall k :: 0 <= k < |marks| ==> later[k] == marks[k] + n
  {
    seq(|marks|, k requires 0 <= k < |marks| => marks[k] + n)
  }

  /** `states` goes on from position n as `ys`, and `all` marks its start and then what `marks` does. */
  lemma MarkedAhead(related: (State, State) -> bool, ys: seq<State>, marks: seq<nat>, n: nat, states: seq<State>,
                    all: seq<nat>)
    requires Marked(related, ys, marks)
    requires |states| == n + |ys| && related(states[0], ys[0])
    requires forall k :: 0 <= k < |ys| ==> states[n + k] == ys[k]
    requires |all| == |marks| + 1 && all[0] == 0
    requires forall k :: 0 < k < |all| ==> all[k] == n + marks[k - 1]
    ensures Marked(related, states, all)
  {
    forall k | 0 < k < |all|
      ensures all[k - 1] <= all[k] && related(states[all[k - 1]], states[all[k]])
    {
      assert states[all[k]] == ys[marks[k - 1]];
      if k > 1 {
        assert states[all[k - 1]] == ys[marks[k - 2]];
        assert related(ys[marks[k - 2]], ys[marks[k - 1]]);
      }
    }
  }

  lemma JoinMarked(related: (State, State) -> bool, xs: seq<State>, ys: seq<State>, marks: seq<nat>)
    requires xs != [] && Marked(related, ys, marks) && xs[|xs| - 1] == ys[0] && related(xs[0], ys[0])
    ensures Marked(related, xs + ys[1..], [0] + Later(marks, |xs| - 1))
  {
    MarkedAhead(related, ys, marks, |xs| - 1, xs + ys[1..], [0] + Later(marks, |xs| - 1));
  }

  /** The whole simulation is a run of actions in which every loop-head state occurs, so the fairness
      and bypass bounds hold of them. */
  lemma SimulationRun(p: Setup, s: State) returns (r: Run, marks: seq<nat>)
    requires LoopInv(p, s)
    ensures Connects(p, r, s, Simulate(p, s)) && Marked(Iteration(p), r.states, marks)
    decreases Remaining(p, s), Passes(p, s)
  {
    r := Still(p, s);
    marks := [0];
    if |s.finished| < |p.rows| {
      StepSound(p, s);
      StepProgress(p, s);
      var t := Step(p, s);
      var x := StepRun(p, s);
      r, marks := SimulationRun(p, t);
      JoinConnects(p, x, r, s, t, Simulate(p, t));
      JoinMarked(Iteration(p), x.states, r.states, marks);
      r, marks := Join(x, r), [0] + Later(marks, |x.states| - 1);
    }
  }

  /** From the start, the marked states are the simulation's loop heads, all of them in order. */
  lemma MarkedTrajectory(p: Setup, r: Run, marks: seq<nat>)
    requires p.Valid() && Marked(Iteration(p), r.states, marks) && r.states[0] == Init(p)
    ensures Trajectory(p, seq(|marks|, k requires 0 <= k < |marks| => r.states[marks[k]]))
    ensures r.states[marks[|marks| - 1]] == Last(r)
  {
    var states := seq(|marks|, k requires 0 <= k < |marks| => r.states[marks[k]]);
    forall k | 0 < k < |states|
      ensures Advances(p, states[k - 1], states[k])
    {
      assert Iteration(p)(r.states[marks[k - 1]], r.states[marks[k]]);
    }
  }

  // ----- every row starts once -----

  /** Whether an action starts a row. */
  ghost predicate Begins(p: Setup, s: State, a: Action, i: nat)
    requires p.Valid() && Shape(p, s) && Enabled(p, s, a)
  {
    a.Serves? && s.queues[a.level][0].index == i
  }

  /** How often the first k actions of a run start row i. */
  ghost function Begun(p: Setup, r: Run, i: nat, k: nat): nat
    requires IsRun(p, r) && k <= |r.actions|
  {
    if k == 0 then 0
    else
      assert Taken(p, r, k - 1);
      Begun(p, r, i, k - 1) + if Begins(p, r.states[k - 1], r.actions[k - 1], i) then 1 else 0
  }

  ghost function Left(s: State, i: nat): nat {
    InRunning(s.running, i) + multiset(s.finished)[i]
  }

  lemma ServeLeaves(p: Setup, s: State, l: nat, i: nat)
    requires p.Valid() && Shape(p, s) && l < p.levels && s.queues[l] != []
    ensures Left(Serve(p, s, l), i) == Left(s, i) + (if s.queues[l][0].index == i then 1 else 0)
  {
    var w := s.queues[l][0];
    InsertCounts(Completion(s.now + p.rows[w.index].durationMs, w.index), s.running, i);
  }

  lemma LeavesQueue(p: Setup, s: State, a: Action, i: nat)
    requires p.Valid() && Shape(p, s) && Enabled(p, s, a)
    ensures Left(Do(p, s, a), i) == Left(s, i) + (if Begins(p, s, a, i) then 1 else 0)
  {
    match a
    case Serves(l) => ServeLeaves(p, s, l, i);
    case Completes =>
    case Move(_) =>
    case Arrives =>
    case Promotes(_) =>
    case Rearms(_) =>
  }

  lemma {:induction false} BegunIsLeft(p: Setup, r: Run, i: nat, k: nat)
    requires IsRun(p, r) && r.states[0] == Init(p) && k <= |r.actions|
    ensures Begun(p, r, i, k) == Left(r.states[k], i)
  {
    if k > 0 {
      BegunIsLeft(p, r, i, k - 1);
      assert Taken(p, r, k - 1);
      LeavesQueue(p, r.states[k - 1], r.actions[k - 1], i);
    }
  }

  /** The simulation is a run in which every row starts exactly once and completes exactly once. */
  lemma EveryRowStartsOnce(p: Setup) returns (r: Run)
    requires p.Valid()
    ensures LoopInv(p, Init(p)) && Connects(p, r, Init(p), Simulate(p, Init(p)))
    ensures forall i: nat :: i < |p.rows| ==> Begun(p, r, i, |r.actions|) == 1 && multiset(Last(r).finished)[i] == 1
  {
    SimulationComplete(p);
    var marks;
    r, marks := SimulationRun(p, Init(p));
    forall i: nat | i < |p.rows|
      ensures Begun(p, r, i, |r.actions|) == 1
    {
      BegunIsLeft(p, r, i, |r.actions|);
    }
  }
}
