/** The broker's queue as the program keeps it: levels, clocks and floor updated in place under one
    lock. */
module WeightedQueue {
  import opened Options
  import opened LevelShares
  import M = LevelShares

  class MultiLevelQueue {
    const setup: Setup
    var levels: seq<seq<Id>>
    var vclock: seq<real>
    var vfloor: real
    ghost var out: seq<Pull>
    ghost var excess: seq<real>

    ghost function State(): Share
      reads this
    {
      Share(levels, vclock, vfloor, out, excess)
    }

    ghost predicate Sound()
      reads this
    {
      setup.Valid() && Shape(setup, State())
    }

    constructor (p: Setup)
      requires p.Valid()
      ensures setup == p && Sound() && State() == Start(p)
    {
      setup := p;
      levels := seq(p.Levels(), _ => []);
      vclock := seq(p.Levels(), _ => 0.0);
      vfloor := 0.0;
      out := [];
      excess := seq(p.Levels(), _ => 0.0);
    }

    /** A level that was empty rejoins at the floor, never behind it. */
    method Activate(l: nat)
      requires l < |vclock|
      modifies `vclock
      ensures vclock == old(vclock)[l := Max(old(vclock)[l], vfloor)]
    {
      if vclock[l] < vfloor {
        vclock := vclock[l := vfloor];
      }
    }

    /** Append a message to its level; a level out of range is refused. */
    method Enqueue(id: Id, l: nat) returns (ok: bool)
      requires Sound()
      modifies `levels, `vclock
      ensures ok <==> l < setup.Levels()
      ensures Sound() && State() == Next(setup, old(State()), Enqueues(id, l))
    {
      if setup.Levels() <= l {
        return false;
      }
      var wasEmpty := levels[l] == [];
      levels := levels[l := levels[l] + [id]];
      if wasEmpty {
        Activate(l);
      }
      return true;
    }

    /** Undo pull k: its message returns to the front and its level is refunded. */
    method RequeueFront(id: Id, l: nat, cost: Option<real>, ghost k: nat)
      requires Sound() && k < |out| && out[k].id == id && out[k].level == l
      modifies this
      ensures Sound() && State() == M.Requeue(setup, old(State()), k, cost)
    {
      var wasEmpty := levels[l] == [];
      levels := levels[l := [id] + levels[l]];
      if wasEmpty {
        Activate(l);
      }
      vclock := vclock[l := vclock[l] - Per(Charge(cost), setup.weights[l])];
      excess := excess[l := excess[l] + Max(0.0, Charge(cost) - out[k].charge)];
      out := Dropped(out, k);
    }

    /** The scan for the non-empty level with the smallest clock. */
    method PickLevel() returns (best: Option<nat>)
      requires Sound()
      ensures best == Best(State(), setup.Levels())
    {
      best := None;
      for l := 0 to |levels|
        invariant best == Best(State(), l)
      {
        if levels[l] != [] && (best.None? || vclock[l] < vclock[best.value]) {
          best := Some(l);
        }
      }
    }

    /** Pull the head of the best level and charge it. */
    method TryDequeue(cost: Option<real>) returns (message: Option<Id>)
      requires Sound()
      modifies this
      ensures Sound() && State() == M.Dequeue(setup, old(State()), cost)
      ensures message.None? <==> forall l :: 0 <= l < |levels| ==> old(levels)[l] == []
      ensures message.Some? ==> |out| == |old(out)| + 1 && out[|old(out)|].id == message.value
    {
      var best := PickLevel();
      if best.None? {
        return None;
      }
      var l := best.value;
      vfloor := Max(vfloor, vclock[l]);
      vclock := vclock[l := vclock[l] + Per(Charge(cost), setup.weights[l])];
      var id := levels[l][0];
      levels := levels[l := levels[l][1..]];
      out := out + [Pull(id, l, Charge(cost))];
      return Some(id);
    }

    /** Take an expired message out of a level. */
    method Remove(l: nat, k: nat) returns (id: Id)
      requires Sound() && l < setup.Levels() && k < |levels[l]|
      modifies `levels
      ensures Sound() && id == old(levels)[l][k] && State() == M.Sweep(setup, old(State()), l, k)
    {
      id := levels[l][k];
      levels := levels[l := levels[l][..k] + levels[l][k + 1..]];
    }

    /** Aging moves a message to the end of the level above. */
    method PromoteOne(l: nat, k: nat)
      requires Sound() && 1 <= l < setup.Levels() && k < |levels[l]|
      modifies `levels, `vclock
      ensures Sound() && State() == M.Promote(setup, old(State()), l, k)
    {
      var id := Remove(l, k);
      var _ := Enqueue(id, l - 1);
    }

    /** The pull took effect: it can no longer be undone. */
    ghost method Commit(k: nat)
      requires Sound() && k < |out|
      modifies `out
      ensures Sound() && State() == Next(setup, old(State()), Commits(k))
    {
      out := Dropped(out, k);
    }
  }
}
