/** The broker's queue under weighted selection: a virtual clock per level, charged when a message is
    pulled and refunded when the pull is undone. Each step is one region under the queue's lock; what
    the cost function answers is an input. Doubles are reals. */
module LevelShares {
  import opened Options

  /** Message ids, compared only. */
  type Id(==, !new)

  datatype Setup = Setup(weights: seq<real>)
  {
    predicate Valid() {
      1 <= |weights| && forall l :: 0 <= l < |weights| ==> 0.0 < weights[l]
    }

    function Levels(): nat {
      |weights|
    }
  }

  /** A pull that is neither committed nor undone, with what it was charged. */
  datatype Pull = Pull(id: Id, level: nat, charge: real)

  /** `out` and `excess` are history; `excess` is how much refunds exceeded the charges they undid. */
  datatype Share = Share(levels: seq<seq<Id>>, vclock: seq<real>, vfloor: real, out: seq<Pull>, excess: seq<real>)

  const MIN_COST: real := 1.0

  /** A cost that is missing, not finite or too small counts as the minimum. */
  function Charge(cost: Option<real>): (c: real)
    ensures MIN_COST <= c
  {
    if cost.Some? && MIN_COST < cost.value then cost.value else MIN_COST
  }

  function Max(x: real, y: real): real {
    if x < y then y else x
  }

  function Per(x: real, w: real): real
    requires w != 0.0
  {
    x / w
  }

  predicate Shape(p: Setup, q: Share) {
    && |q.levels| == |q.vclock| == |q.excess| == p.Levels()
    && forall k :: 0 <= k < |q.out| ==> q.out[k].level < p.Levels() && MIN_COST <= q.out[k].charge
  }

  function Start(p: Setup): Share {
    Share(seq(p.Levels(), _ => []), seq(p.Levels(), _ => 0.0), 0.0, [], seq(p.Levels(), _ => 0.0))
  }

  // ----- steps -----

  /** Among the first n levels, the first of the non-empty ones with the smallest clock. */
  function Best(q: Share, n: nat): (best: Option<nat>)
    requires n <= |q.levels| == |q.vclock|
    ensures best.Some? ==> best.value < n && q.levels[best.value] != []
    ensures best.Some? ==> forall l :: 0 <= l < n && q.levels[l] != [] ==> q.vclock[best.value] <= q.vclock[l]
    ensures best.Some? ==> forall l :: 0 <= l < best.value && q.levels[l] != [] ==> q.vclock[best.value] < q.vclock[l]
    ensures best.None? ==> forall l :: 0 <= l < n ==> q.levels[l] == []
  {
    if n == 0 then None
    else
      var best := Best(q, n - 1);
      if q.levels[n - 1] != [] && (best.None? || q.vclock[n - 1] < q.vclock[best.value]) then Some(n - 1) else best
  }

  /** The clock a level has, or rejoins with: never behind the floor when it returns from empty. */
  function Standing(q: Share, l: nat): real
    requires l < |q.levels| == |q.vclock|
  {
    if q.levels[l] != [] then q.vclock[l] else Max(q.vclock[l], q.vfloor)
  }

  function Enqueue(p: Setup, q: Share, id: Id, l: nat): Share
    requires Shape(p, q) && l < p.Levels()
  {
    q.(levels := q.levels[l := q.levels[l] + [id]], vclock := q.vclock[l := Standing(q, l)])
  }

  /** Serve the best level and charge it; its clock before the charge lifts the floor. */
  function Dequeue(p: Setup, q: Share, cost: Option<real>): Share
    requires p.Valid() && Shape(p, q)
  {
    var best := Best(q, p.Levels());
    if best.None? then q
    else
      var l := best.value;
      var v, c := q.vclock[l], Charge(cost);
      q.(vfloor := Max(q.vfloor, v), vclock := q.vclock[l := v + Per(c, p.weights[l])],
         levels := q.levels[l := q.levels[l][1..]], out := q.out + [Pull(q.levels[l][0], l, c)])
  }

  function Dropped(out: seq<Pull>, k: nat): seq<Pull>
    requires k < |out|
  {
    out[..k] + out[k + 1..]
  }

  /** An uncommitted pull is undone: its message goes back to the front and its level is refunded what
      the message costs now. */
  function Requeue(p: Setup, q: Share, k: nat, cost: Option<real>): Share
    requires p.Valid() && Shape(p, q) && k < |q.out|
  {
    var pull, r := q.out[k], Charge(cost);
    var l := pull.level;
    q.(levels := q.levels[l := [pull.id] + q.levels[l]], vclock := q.vclock[l := Standing(q, l) - Per(r, p.weights[l])],
       out := Dropped(q.out, k), excess := q.excess[l := q.excess[l] + Max(0.0, r - pull.charge)])
  }

  function Sweep(p: Setup, q: Share, l: nat, k: nat): Share
    requires Shape(p, q) && l < p.Levels() && k < |q.levels[l]|
  {
    q.(levels := q.levels[l := q.levels[l][..k] + q.levels[l][k + 1..]])
  }

  /** Aging moves a message to the end of the level above. */
  function Promote(p: Setup, q: Share, l: nat, k: nat): Share
    requires Shape(p, q) && 1 <= l < p.Levels() && k < |q.levels[l]|
  {
    Enqueue(p, Sweep(p, q, l, k), q.levels[l][k], l - 1)
  }

  datatype Step = Enqueues(id: Id, level: nat) | Dequeues(cost: Option<real>) | Requeues(pull: nat, cost: Option<real>)
                | Commits(pull: nat) | Sweeps(level: nat, place: nat) | Promotes(level: nat, place: nat)

  predicate Can(p: Setup, q: Share, s: Step)
    requires Shape(p, q)
  {
    match s
    case Enqueues(_, l) => l < p.Levels()
    case Dequeues(_) => true
    case Requeues(k, _) => k < |q.out|
    case Commits(k) => k < |q.out|
    case Sweeps(l, k) => l < p.Levels() && k < |q.levels[l]|
    case Promotes(l, k) => 1 <= l < p.Levels() && k < |q.levels[l]|
  }

  /** An attempted step; one that is not possible changes nothing. */
  function Next(p: Setup, q: Share, s: Step): (r: Share)
    requires p.Valid() && Shape(p, q)
    ensures Shape(p, r)
  {
    if !Can(p, q, s) then q
    else match s
      case Enqueues(id, l) => Enqueue(p, q, id, l)
      case Dequeues(cost) => Dequeue(p, q, cost)
      case Requeues(k, cost) => Requeue(p, q, k, cost)
      case Commits(k) => q.(out := Dropped(q.out, k))
      case Sweeps(l, k) => Sweep(p, q, l, k)
      case Promotes(l, k) => Promote(p, q, l, k)
  }

  /** A run from an empty queue: its states and the steps attempted between each two. */
  datatype Run = Run(states: seq<Share>, steps: seq<Step>)

  ghost predicate IsRun(p: Setup, r: Run): (yes: bool)
    ensures yes ==> && p.Valid() && |r.states| == |r.steps| + 1
                    && (forall k :: 0 <= k < |r.states| ==> Shape(p, r.states[k]))
                    && (forall k :: 0 <= k < |r.steps| ==> Taken(p, r, k))
  {
    && p.Valid() && |r.states| == |r.steps| + 1 && r.states[0] == Start(p)
    && (forall k :: 0 <= k < |r.steps| ==> Follows(p, r, k))
    && (RunShaped(p, r); true)
  }

  ghost predicate Taken(p: Setup, r: Run, k: nat)
    requires p.Valid() && k < |r.steps| && k + 1 < |r.states| && Shape(p, r.states[k])
  {
    r.states[k + 1] == Next(p, r.states[k], r.steps[k])
  }

  ghost predicate Follows(p: Setup, r: Run, k: nat)
    requires p.Valid() && k < |r.steps| && k + 1 < |r.states|
  {
    Shape(p, r.states[k]) ==> Taken(p, r, k)
  }

  lemma RunShaped(p: Setup, r: Run)
    requires p.Valid() && |r.states| == |r.steps| + 1 && r.states[0] == Start(p)
    requires forall k :: 0 <= k < |r.steps| ==> Follows(p, r, k)
    ensures forall k :: 0 <= k < |r.states| ==> Shape(p, r.states[k])
    ensures forall k :: 0 <= k < |r.steps| ==> Taken(p, r, k)
  {
    forall k | 0 <= k < |r.states|
      ensures Shape(p, r.states[k])
    {
      StateShaped(p, r, k);
    }
    forall k | 0 <= k < |r.steps|
      ensures Taken(p, r, k)
    {
      assert Follows(p, r, k);
    }
  }

  lemma {:induction false} StateShaped(p: Setup, r: Run, n: nat)
    requires p.Valid() && |r.states| == |r.steps| + 1 && r.states[0] == Start(p) && n < |r.states|
    requires forall k :: 0 <= k < |r.steps| ==> Follows(p, r, k)
    ensures Shape(p, r.states[n])
  {
    if n > 0 {
      StateShaped(p, r, n - 1);
      assert Follows(p, r, n - 1);
    }
  }

  // ----- arithmetic -----

  lemma PerSum(x: real, y: real, w: real)
    requires w != 0.0
    ensures Per(x + y, w) == Per(x, w) + Per(y, w)
  {
  }

  lemma PerOrder(x: real, y: real, w: real)
    requires 0.0 < w && x <= y
    ensures Per(x, w) <= Per(y, w)
  {
    assert y / w - x / w == (y - x) / w >= 0.0;
  }

  // ----- what is owed -----

  /** What a level was charged for pulls neither committed nor undone. */
  ghost function Owed(out: seq<Pull>, l: nat): real {
    if out == [] then 0.0
    else Owed(out[..|out| - 1], l) + if out[|out| - 1].level == l then out[|out| - 1].charge else 0.0
  }

  lemma {:induction false} OwedDropped(out: seq<Pull>, k: nat, l: nat)
    requires k < |out|
    ensures Owed(Dropped(out, k), l) == Owed(out, l) - if out[k].level == l then out[k].charge else 0.0
  {
    var n := |out| - 1;
    if k == n {
      assert Dropped(out, k) == out[..n];
    } else {
      OwedDropped(out[..n], k, l);
      var d := Dropped(out, k);
      assert d[..|d| - 1] == Dropped(out[..n], k);
    }
  }

  lemma {:induction false} OwedMore(out: seq<Pull>, pull: Pull, l: nat)
    ensures Owed(out + [pull], l) == Owed(out, l) + if pull.level == l then pull.charge else 0.0
  {
    assert (out + [pull])[..|out|] == out;
  }
}
