/** The simulator as the program runs it: fields that its steps overwrite, with the scans and loops
    of the source, each proved to compute the step of the model. */
module Simulator {
  import opened Options
  import opened SchedulerModel
  import opened SchedulerInvariants
  import opened SchedulerLoop
  import M = SchedulerModel

  class Simulation {
    const p: Setup
    var queues: seq<seq<Waiting>>
    var promotedIn: seq<int>
    var vclock: seq<real>
    var levelCost: seq<real>
    var vfloor: real
    var running: seq<Completion>
    var next: nat
    var done: nat
    var queued: int
    var idle: int
    var now: real
    var nextAging: real
    var pulledFrom: seq<nat>
    var wait: seq<real>
    var latency: seq<real>
    ghost var finished: seq<nat>
    ghost var clock: real

    ghost function State(): State
      reads this
    {
      M.State.State(queues, promotedIn, vclock, levelCost, vfloor, running, next, queued, idle, now, nextAging,
                    pulledFrom, wait, latency, finished, clock)
    }

    ghost predicate Valid()
      reads this
    {
      p.Valid() && Shape(p, State()) && done == |finished|
    }

    constructor (setup: Setup)
      requires setup.Valid()
      ensures p == setup && Valid() && State() == Init(setup)
    {
      p := setup;
      queues := seq(setup.levels, _ => []);
      promotedIn := seq(setup.levels, _ => 0);
      vclock := seq(setup.levels, _ => 0.0);
      levelCost := seq(setup.levels, _ => 0.0);
      vfloor := 0.0;
      running := [];
      next, done, queued, idle := 0, 0, 0, setup.workers;
      now, nextAging := 0.0, setup.interval;
      pulledFrom := seq(|setup.rows|, _ => 0);
      wait := seq(|setup.rows|, _ => 0.0);
      latency := seq(|setup.rows|, _ => 0.0);
      finished, clock := [], 0.0;
      new;
      InitSound(setup);
      assert State() == Init(setup);
    }

    method PlaceAt(level: nat, w: Waiting)
      requires Valid() && level < p.levels && w.index < |p.rows|
      modifies this
      ensures State() == M.Place(p, old(State()), level, w) && done == old(done)
    {
      if p.Weighted() && queues[level] == [] {
        vclock := vclock[level := Max(vclock[level], vfloor)];
      }
      promotedIn := promotedIn[level := promotedIn[level] + (if w.promoted then 1 else 0)];
      queues := queues[level := queues[level] + [w]];
    }

    method PopHead(level: nat) returns (w: Waiting)
      requires Valid() && level < p.levels && queues[level] != []
      modifies this
      ensures w == old(queues[level][0])
      ensures State() == M.Drop(p, old(State()), level) && done == old(done)
    {
      w := queues[level][0];
      queues := queues[level := queues[level][1..]];
      promotedIn := promotedIn[level := promotedIn[level] - (if w.promoted then 1 else 0)];
    }

    method StartHead(level: nat) returns (w: Waiting)
      requires Valid() && level < p.levels && queues[level] != []
      modifies this
      ensures w == old(queues[level][0])
      ensures State() == M.Start(p, old(State()), level) && done == old(done)
    {
      w := PopHead(level);
      queued := queued - 1;
      idle := idle - 1;
      pulledFrom := pulledFrom[w.index := level];
      wait := wait[w.index := now - p.Arrival(w.index)];
      running := Insert(Completion(now + p.rows[w.index].durationMs, w.index), running);
    }

    /** The scan over the levels for the next one to serve. */
    method PickLevel() returns (best: nat)
      requires Valid() && queued > 0
      ensures best < p.levels && queues[best] != []
      ensures M.Choose(p, State()) == Some(best)
    {
      ChoosePicks(p, State());
      var found := -1;
      for level := 0 to p.levels
        invariant -1 <= found < level
        invariant ChooseFrom(p, State(), level, if found < 0 then None else Some(found)) == Choose(p, State())
      {
        if queues[level] != [] && (found < 0 || (p.Weighted() && vclock[level] < vclock[found])) {
          found := level;
        }
      }
      best := found;
    }

    method ServeOne()
      requires Valid() && idle > 0 && queued > 0
      modifies this
      ensures M.Choose(p, old(State())).Some?
      ensures var best := M.Choose(p, old(State())).value;
              old(queues)[best] != [] && State() == M.Serve(p, old(State()), best)
      ensures Valid()
    {
      var best := PickLevel();
      ServeShape(p, State(), best);
      if p.Weighted() {
        vfloor := Max(vfloor, vclock[best]);
        var w := StartHead(best);
        var cost := if p.routes[w.index].estimate > 0.0 then p.routes[w.index].estimate
                    else if levelCost[best] > 0.0 then levelCost[best] else 1.0;
        vclock := vclock[best := vclock[best] + Max(cost, 1.0) / p.policy.weights[best]];
      } else {
        var _ := StartHead(best);
      }
    }

    method DispatchAll()
      requires Valid()
      modifies this
      ensures Valid() && State() == M.Dispatch(p, old(State()))
    {
      while idle > 0 && queued > 0
        invariant Valid()
        invariant M.Dispatch(p, State()) == M.Dispatch(p, old(State()))
        decreases idle
      {
        ServeOne();
      }
    }

    method PromoteHead(level: nat)
      requires Valid() && 1 <= level < p.levels && queues[level] != []
      modifies this
      ensures Valid() && State() == M.Promote(p, old(State()), level)
    {
      PromoteShape(p, State(), level);
      PlaceDropped(p, State(), level);
      var w := PopHead(level);
      queued := queued - 1;
      PlaceAt(level - 1, w.(placed := now, promoted := true));
      queued := queued + 1;
    }

    /** One aging pass, bottom level first. */
    method AgePass()
      requires Valid()
      modifies this
      ensures Valid() && State() == M.Age(p, old(State()))
    {
      AgeDownOnly(p, State(), p.levels - 1);
      AgeLevels();
      assert now == old(now);
      Rearm();
    }

    method Rearm()
      modifies `nextAging
      ensures State() == old(State()).(nextAging := now + p.interval)
    {
      nextAging := now + p.interval;
    }

    method AgeLevels()
      requires Valid()
      modifies this
      ensures Valid() && State() == M.AgeDown(p, old(State()), p.levels - 1)
    {
      for level := p.levels downto 1
        invariant Valid()
        invariant M.AgeDown(p, State(), level - 1) == M.AgeDown(p, old(State()), p.levels - 1)
      {
        if !(p.policy.pausing && promotedIn[level - 1] != 0 && queues[level - 1] != [] &&
             now - p.Arrival(queues[level - 1][0].index) >= p.threshold) {
          AgeOne(level);
        }
      }
    }

    method AgeOne(level: nat)
      requires Valid() && 1 <= level < p.levels
      modifies this
      ensures Valid() && State() == M.AgeLevel(p, old(State()), level)
    {
      while queues[level] != [] && now - queues[level][0].placed >= p.threshold
        invariant Valid()
        invariant M.AgeLevel(p, State(), level) == M.AgeLevel(p, old(State()), level)
        decreases |queues[level]|
      {
        PromoteHead(level);
        if p.policy.pausing {
          return;
        }
      }
    }

    method CompleteFirst()
      requires Valid() && running != []
      modifies this
      ensures Valid() && State() == M.Complete(p, old(State()))
    {
      CompleteShape(p, State());
      var c := running[0];
      LearnCost(pulledFrom[c.index], p.rows[c.index].durationMs);
      Retire(c.index, c.end - p.Arrival(c.index));
    }

    /** The first worker's row is done. */
    method Retire(index: nat, took: real)
      requires running != [] && index < |latency| && done == |finished|
      modifies `running, `idle, `done, `finished, `latency
      ensures running == old(running)[1..] && idle == old(idle) + 1 && finished == old(finished) + [index]
      ensures latency == old(latency)[index := took] && done == |finished|
    {
      running := running[1..];
      idle := idle + 1;
      done := done + 1;
      finished := finished + [index];
      latency := latency[index := took];
    }

    /** A level's running cost moves towards each duration it completes. */
    method LearnCost(level: nat, duration: real)
      requires level < |levelCost|
      modifies `levelCost
      ensures var average := old(levelCost)[level];
              levelCost == old(levelCost)[level := if average > 0.0 then average + 0.05 * (duration - average)
                                                   else duration]
    {
      var average := levelCost[level];
      levelCost := levelCost[level := if average > 0.0 then average + 0.05 * (duration - average) else duration];
    }

    method ArriveNext()
      requires Valid() && next < |p.rows|
      modifies this
      ensures Valid() && State() == M.Arrive(p, old(State()))
    {
      ArriveShape(p, State());
      PlaceAt(p.routes[next].tier, Waiting(next, now, false));
      queued := queued + 1;
      next := next + 1;
    }

    method MoveOn(at: real)
      requires Valid()
      modifies this
      ensures Valid() && State() == MoveTo(old(State()), at)
    {
      now := at;
      clock := Max(clock, at);
    }

    /** Take the earliest pending event; completions win ties, then arrivals. */
    method HandleNext()
      requires Valid() && NextEvent(p, State()) != Stuck
      modifies this
      ensures Valid() && State() == Handle(p, old(State()))
    {
      var tArrival := if next < |p.rows| then Some(p.Arrival(next)) else None;
      var tComplete := if running == [] then None else Some(running[0].end);
      var tAging := if queued != 0 && p.policy.aging then Some(nextAging) else None;
      if tComplete.Some? && NotAfter(tComplete.value, tArrival) && NotAfter(tComplete.value, tAging) {
        MoveOn(tComplete.value);
        CompleteFirst();
      } else if tArrival.Some? && NotAfter(tArrival.value, tAging) {
        MoveOn(tArrival.value);
        ArriveNext();
      } else {
        MoveOn(tAging.value);
        AgePass();
      }
    }

    /** One iteration of the loop. */
    method StepOnce()
      requires Valid() && NextEvent(p, State()) != Stuck
      modifies this
      ensures Valid() && State() == M.Step(p, old(State()))
    {
      HandleNext();
      DispatchAll();
      if queued == 0 {
        nextAging := now + p.interval;
      }
    }

    /** The simulation: it ends, with every row's wait and latency recorded. */
    method Run()
      requires Valid() && LoopInv(p, State())
      modifies this
      ensures Valid() && State() == Simulate(p, old(State()))
    {
      while done < |p.rows|
        invariant Valid() && LoopInv(p, State())
        invariant Simulate(p, State()) == Simulate(p, old(State()))
        decreases Remaining(p, State()), Passes(p, State())
      {
        StepSound(p, State());
        StepProgress(p, State());
        StepOnce();
      }
    }
  }

  /** Simulating a trace gives each row one wait and one latency. */
  method Simulated(setup: Setup) returns (wait: seq<real>, latency: seq<real>)
    requires setup.Valid()
    ensures |wait| == |latency| == |setup.rows|
    ensures forall i :: 0 <= i < |setup.rows| ==>
              0.0 <= wait[i] && latency[i] == wait[i] + setup.rows[i].durationMs
  {
    var simulation := new Simulation(setup);
    SimulationComplete(setup);
    simulation.Run();
    wait, latency := simulation.wait, simulation.latency;
  }
}
