/** Worker-time share with refunds: how far a level can be behind the floor, how far two backlogged
    levels drift apart and how much others are charged while one waits, over every run of the broker's
    queue. */
module ShareFairness {
  import opened Options
  import opened LevelShares

  /** Every pull is charged at most `c`. Refunds are not bounded. */
  ghost predicate ChargesWithin(run: Run, c: real) {
    MIN_COST <= c && forall k :: 0 <= k < |run.steps| && run.steps[k].Dequeues? ==> Charge(run.steps[k].cost) <= c
  }

  /** No level ever owes more than its limit, up to state n. */
  ghost predicate OwedWithin(p: Setup, run: Run, limits: seq<real>, n: nat)
    requires IsRun(p, run) && n <= |run.steps|
  {
    |limits| == p.Levels() && forall k :: 0 <= k <= n ==> Within(p, run.states[k], limits)
  }

  ghost predicate Within(p: Setup, q: Share, limits: seq<real>)
    requires |limits| == p.Levels()
  {
    forall l :: 0 <= l < p.Levels() ==> Owed(q.out, l) <= limits[l]
  }

  /** What a level can still fall behind by: what it may owe and does not, and what it was refunded in
      excess. */
  ghost function Slack(q: Share, l: nat, limits: seq<real>): real
    requires l < |limits| && l < |q.excess|
  {
    limits[l] - Owed(q.out, l) + q.excess[l]
  }

  ghost predicate LevelKept(p: Setup, q: Share, c: real, limits: seq<real>, l: nat)
    requires p.Valid() && Shape(p, q) && l < p.Levels() == |limits|
  {
    && 0.0 <= q.excess[l]
    && q.vfloor - Per(Slack(q, l, limits), p.weights[l]) <= Standing(q, l)
    && q.vclock[l] <= q.vfloor + Per(c, p.weights[l])
  }

  ghost predicate Kept(p: Setup, q: Share, c: real, limits: seq<real>)
    requires p.Valid() && Shape(p, q) && p.Levels() == |limits|
  {
    forall l :: 0 <= l < p.Levels() ==> LevelKept(p, q, c, limits, l)
  }

  // ----- every step keeps the clocks near the floor -----

  lemma {:induction false} SlackPositive(p: Setup, q: Share, limits: seq<real>, l: nat)
    requires p.Valid() && Shape(p, q) && l < p.Levels() == |limits|
    requires Owed(q.out, l) <= limits[l] && 0.0 <= q.excess[l]
    ensures 0.0 <= Per(Slack(q, l, limits), p.weights[l])
  {
    PerOrder(0.0, Slack(q, l, limits), p.weights[l]);
    assert Per(0.0, p.weights[l]) == 0.0;
  }

  /** A level whose ledger is unchanged, while the floor does not rise above its standing. */
  lemma {:induction false} Undisturbed(p: Setup, q: Share, r: Share, c: real, limits: seq<real>, l: nat)
    requires p.Valid() && Shape(p, q) && Shape(p, r) && l < p.Levels() == |limits|
    requires LevelKept(p, q, c, limits, l) && Within(p, q, limits)
    requires Owed(r.out, l) == Owed(q.out, l) && r.excess[l] == q.excess[l]
    requires Standing(q, l) <= Standing(r, l) && r.vclock[l] <= Max(q.vclock[l], q.vfloor)
    requires q.vfloor <= r.vfloor && (r.vfloor == q.vfloor || r.vfloor <= Standing(r, l))
    requires MIN_COST <= c
    ensures LevelKept(p, r, c, limits, l)
  {
    SlackPositive(p, q, limits, l);
    PerOrder(0.0, c, p.weights[l]);
    assert Per(0.0, p.weights[l]) == 0.0;
  }

  lemma {:induction false} DequeueServed(p: Setup, q: Share, cost: Option<real>, c: real, limits: seq<real>, l: nat)
    requires p.Valid() && Shape(p, q) && p.Levels() == |limits| && Best(q, p.Levels()) == Some(l)
    requires LevelKept(p, q, c, limits, l) && Within(p, q, limits) && Charge(cost) <= c
    ensures LevelKept(p, Dequeue(p, q, cost), c, limits, l)
  {
    var charge, w := Charge(cost), p.weights[l];
    SlackPositive(p, q, limits, l);
    OwedMore(q.out, Pull(q.levels[l][0], l, charge), l);
    PerSum(Slack(q, l, limits) - charge, charge, w);
    PerOrder(charge, c, w);
  }

  lemma {:induction false} DequeueOther(p: Setup, q: Share, cost: Option<real>, c: real, limits: seq<real>,
                                        best: nat, l: nat)
    requires p.Valid() && Shape(p, q) && l < p.Levels() == |limits| && Best(q, p.Levels()) == Some(best) && l != best
    requires LevelKept(p, q, c, limits, l) && Within(p, q, limits) && MIN_COST <= c
    ensures LevelKept(p, Dequeue(p, q, cost), c, limits, l)
  {
    OwedMore(q.out, Pull(q.levels[best][0], best, Charge(cost)), l);
    Undisturbed(p, q, Dequeue(p, q, cost), c, limits, l);
  }

  lemma RequeueRefunded(p: Setup, q: Share, k: nat, cost: Option<real>, c: real, limits: seq<real>)
    requires p.Valid() && Shape(p, q) && p.Levels() == |limits| && k < |q.out| && MIN_COST <= c
    requires LevelKept(p, q, c, limits, q.out[k].level)
    ensures LevelKept(p, Requeue(p, q, k, cost), c, limits, q.out[k].level)
  {
    var l, refund := q.out[k].level, Charge(cost);
    var w, r := p.weights[l], Requeue(p, q, k, cost);
    OwedDropped(q.out, k, l);
    PerSum(Slack(q, l, limits), refund, w);
    PerOrder(Slack(q, l, limits) + refund, Slack(r, l, limits), w);
    PerOrder(0.0, refund, w);
    PerOrder(0.0, c, w);
    assert Per(0.0, w) == 0.0;
  }

  lemma RequeueOther(p: Setup, q: Share, k: nat, cost: Option<real>, c: real, limits: seq<real>, l: nat)
    requires p.Valid() && Shape(p, q) && l < p.Levels() == |limits| && k < |q.out| && l != q.out[k].level
    requires LevelKept(p, q, c, limits, l) && Within(p, q, limits) && MIN_COST <= c
    ensures LevelKept(p, Requeue(p, q, k, cost), c, limits, l)
  {
    OwedDropped(q.out, k, l);
    Undisturbed(p, q, Requeue(p, q, k, cost), c, limits, l);
  }

  lemma CommitKept(p: Setup, q: Share, k: nat, c: real, limits: seq<real>, l: nat)
    requires p.Valid() && Shape(p, q) && l < p.Levels() == |limits| && k < |q.out|
    requires LevelKept(p, q, c, limits, l)
    ensures LevelKept(p, q.(out := Dropped(q.out, k)), c, limits, l)
  {
    var r := q.(out := Dropped(q.out, k));
    OwedDropped(q.out, k, l);
    PerOrder(Slack(q, l, limits), Slack(r, l, limits), p.weights[l]);
  }

  lemma MoveKept(p: Setup, q: Share, s: Step, c: real, limits: seq<real>, l: nat)
    requires p.Valid() && Shape(p, q) && l < p.Levels() == |limits| && MIN_COST <= c
    requires s.Enqueues? || s.Sweeps? || s.Promotes?
    requires LevelKept(p, q, c, limits, l) && Within(p, q, limits)
    ensures LevelKept(p, Next(p, q, s), c, limits, l)
  {
    Undisturbed(p, q, Next(p, q, s), c, limits, l);
  }

  /** Every step keeps every level's clock within one charge above the floor and its slack below. */
  lemma NextKept(p: Setup, q: Share, s: Step, c: real, limits: seq<real>, l: nat)
    requires p.Valid() && Shape(p, q) && l < p.Levels() == |limits| && MIN_COST <= c
    requires s.Dequeues? ==> Charge(s.cost) <= c
    requires LevelKept(p, q, c, limits, l) && Within(p, q, limits)
    ensures LevelKept(p, Next(p, q, s), c, limits, l)
  {
    if Can(p, q, s) {
      match s
      case Dequeues(cost) =>
        var best := Best(q, p.Levels());
        if best.Some? {
          if best.value == l {
            DequeueServed(p, q, cost, c, limits, l);
          } else {
            DequeueOther(p, q, cost, c, limits, best.value, l);
          }
        }
      case Requeues(k, cost) =>
        if q.out[k].level == l {
          RequeueRefunded(p, q, k, cost, c, limits);
        } else {
          RequeueOther(p, q, k, cost, c, limits, l);
        }
      case Commits(k) => CommitKept(p, q, k, c, limits, l);
      case _ => MoveKept(p, q, s, c, limits, l);
    }
  }

  lemma StartKept(p: Setup, c: real, limits: seq<real>)
    requires p.Valid() && p.Levels() == |limits| && MIN_COST <= c && Within(p, Start(p), limits)
    ensures Kept(p, Start(p), c, limits)
  {
    forall l | 0 <= l < p.Levels()
      ensures LevelKept(p, Start(p), c, limits, l)
    {
      SlackPositive(p, Start(p), limits, l);
      PerOrder(0.0, c, p.weights[l]);
      assert Per(0.0, p.weights[l]) == 0.0;
    }
  }

  lemma {:induction false} AlwaysKept(p: Setup, run: Run, c: real, limits: seq<real>, n: nat)
    requires IsRun(p, run) && ChargesWithin(run, c) && n <= |run.steps| && OwedWithin(p, run, limits, n)
    ensures Kept(p, run.states[n], c, limits)
  {
    assert Within(p, run.states[n], limits);
    if n == 0 {
      StartKept(p, c, limits);
    } else {
      AlwaysKept(p, run, c, limits, n - 1);
      assert Taken(p, run, n - 1);
      assert Within(p, run.states[n - 1], limits);
      forall l | 0 <= l < p.Levels()
        ensures LevelKept(p, run.states[n], c, limits, l)
      {
        NextKept(p, run.states[n - 1], run.steps[n - 1], c, limits, l);
      }
    }
  }

  /** In every state of every run a non-empty level's clock is at most one charge above the floor, and
      below it by at most what the level may owe and does not, plus what refunds exceeded charges by. */
  lemma {:induction false} NeverFarBehind(p: Setup, run: Run, c: real, limits: seq<real>, n: nat, l: nat)
    requires IsRun(p, run) && ChargesWithin(run, c) && n <= |run.steps| && OwedWithin(p, run, limits, n)
    requires l < p.Levels()
    requires run.states[n].levels[l] != []
    ensures var q, w := run.states[n], p.weights[l];
            q.vfloor - Per(limits[l] - Owed(q.out, l) + q.excess[l], w) <= q.vclock[l] <= q.vfloor + Per(c, w)
  {
    AlwaysKept(p, run, c, limits, n);
    assert LevelKept(p, run.states[n], c, limits, l);
  }

  // ----- fairness between backlogged levels -----

  /** What a step charges a level, less what it refunds. */
  ghost function Gain(p: Setup, q: Share, s: Step, l: nat): real
    requires p.Valid() && Shape(p, q)
  {
    if s.Dequeues? && Best(q, p.Levels()) == Some(l) then Charge(s.cost)
    else if s.Requeues? && s.pull < |q.out| && q.out[s.pull].level == l then -Charge(s.cost)
    else 0.0
  }

  /** What steps `a` up to `b` charge a level, less what they refund. */
  ghost function Net(p: Setup, run: Run, l: nat, a: nat, b: nat): real
    requires IsRun(p, run) && a <= b <= |run.steps|
  {
    if a == b then 0.0 else Net(p, run, l, a, b - 1) + Gain(p, run.states[b - 1], run.steps[b - 1], l)
  }

  ghost predicate Backlogged(p: Setup, run: Run, l: nat, a: nat, b: nat)
    requires IsRun(p, run) && l < p.Levels() && a <= b <= |run.steps|
  {
    forall k :: a <= k <= b ==> run.states[k].levels[l] != []
  }

  lemma ClockGains(p: Setup, q: Share, s: Step, l: nat)
    requires p.Valid() && Shape(p, q) && l < p.Levels() && q.levels[l] != []
    ensures Next(p, q, s).vclock[l] == q.vclock[l] + Per(Gain(p, q, s, l), p.weights[l])
  {
    assert Per(0.0, p.weights[l]) == 0.0;
    if s.Requeues? {
      PerSum(Charge(s.cost), -Charge(s.cost), p.weights[l]);
    }
  }

  /** While a level is backlogged its clock moves exactly by what it is charged less what it is refunded. */
  lemma {:induction false} ClockIsNet(p: Setup, run: Run, l: nat, a: nat, b: nat)
    requires IsRun(p, run) && l < p.Levels() && a <= b <= |run.steps| && Backlogged(p, run, l, a, b)
    ensures Per(Net(p, run, l, a, b), p.weights[l]) == run.states[b].vclock[l] - run.states[a].vclock[l]
  {
    if a == b {
      assert Per(0.0, p.weights[l]) == 0.0;
    } else {
      ClockIsNet(p, run, l, a, b - 1);
      assert Taken(p, run, b - 1);
      assert run.states[b - 1].levels[l] != [];
      ClockGains(p, run.states[b - 1], run.steps[b - 1], l);
      PerSum(Net(p, run, l, a, b - 1), Gain(p, run.states[b - 1], run.steps[b - 1], l), p.weights[l]);
    }
  }

  lemma {:induction false} ExcessGrows(p: Setup, run: Run, l: nat, a: nat, b: nat)
    requires IsRun(p, run) && l < p.Levels() && a <= b <= |run.steps|
    ensures run.states[a].excess[l] <= run.states[b].excess[l]
  {
    if a < b {
      ExcessGrows(p, run, l, a, b - 1);
      assert Taken(p, run, b - 1);
    }
  }

  function Abs(x: real): real {
    if x < 0.0 then -x else x
  }

  /** Two clocks near one floor at two times: how far their moves can differ. */
  lemma MovesDiffer(f: real, g: real, ia: real, ib: real, ja: real, jb: real, ui: real, uj: real, di: real, dj: real)
    requires f - di <= ia <= f + ui && f - dj <= ja <= f + uj
    requires g - di <= ib <= g + ui && g - dj <= jb <= g + uj
    ensures Abs((ib - ia) - (jb - ja)) <= (ui + di) + (uj + dj)
  {
  }

  /** Weighted fairness with refunds: over any stretch on which two levels stay backlogged, what they
      are charged per weight, less refunds, differs by at most one charge and one slack of each, where
      the slack is what the level may owe and all it was refunded in excess. */
  lemma {:induction false} FairnessWithRefunds(p: Setup, run: Run, c: real, limits: seq<real>, i: nat, j: nat,
                                               a: nat, b: nat)
    requires IsRun(p, run) && ChargesWithin(run, c) && a <= b <= |run.steps| && OwedWithin(p, run, limits, b)
    requires i < p.Levels() && j < p.Levels() && Backlogged(p, run, i, a, b) && Backlogged(p, run, j, a, b)
    ensures var wi, wj, ei, ej := p.weights[i], p.weights[j], run.states[b].excess[i], run.states[b].excess[j];
            Abs(Per(Net(p, run, i, a, b), wi) - Per(Net(p, run, j, a, b), wj))
              <= Per(c, wi) + Per(Reserve(p, run, limits, i, a, b) + ei, wi)
               + Per(c, wj) + Per(Reserve(p, run, limits, j, a, b) + ej, wj)
  {
    ClockIsNet(p, run, i, a, b);
    ClockIsNet(p, run, j, a, b);
    NearFloor(p, run, c, limits, i, a, b);
    NearFloor(p, run, c, limits, j, a, b);
    var q, r := run.states[a], run.states[b];
    MovesDiffer(q.vfloor, r.vfloor, q.vclock[i], r.vclock[i], q.vclock[j], r.vclock[j],
                Per(c, p.weights[i]), Per(c, p.weights[j]),
                Per(Reserve(p, run, limits, i, a, b) + r.excess[i], p.weights[i]),
                Per(Reserve(p, run, limits, j, a, b) + r.excess[j], p.weights[j]));
  }

  /** What a level may owe and does not, at the less indebted end of a stretch. */
  ghost function Reserve(p: Setup, run: Run, limits: seq<real>, l: nat, a: nat, b: nat): real
    requires IsRun(p, run) && a <= b <= |run.steps| && l < |limits|
  {
    Max(limits[l] - Owed(run.states[a].out, l), limits[l] - Owed(run.states[b].out, l))
  }

  lemma {:induction false} NearFloor(p: Setup, run: Run, c: real, limits: seq<real>, l: nat, a: nat, b: nat)
    requires IsRun(p, run) && ChargesWithin(run, c) && a <= b <= |run.steps| && OwedWithin(p, run, limits, b)
    requires l < p.Levels() && Backlogged(p, run, l, a, b)
    ensures var q, r, w := run.states[a], run.states[b], p.weights[l];
            var below := Per(Reserve(p, run, limits, l, a, b) + r.excess[l], w);
            && q.vfloor - below <= q.vclock[l] <= q.vfloor + Per(c, w)
            && r.vfloor - below <= r.vclock[l] <= r.vfloor + Per(c, w)
  {
    var q, r, w := run.states[a], run.states[b], p.weights[l];
    assert q.levels[l] != [] && r.levels[l] != [];
    NeverFarBehind(p, run, c, limits, a, l);
    NeverFarBehind(p, run, c, limits, b, l);
    ExcessGrows(p, run, l, a, b);
    var reserve := Reserve(p, run, limits, l, a, b);
    PerOrder(limits[l] - Owed(q.out, l) + q.excess[l], reserve + r.excess[l], w);
    PerOrder(limits[l] - Owed(r.out, l) + r.excess[l], reserve + r.excess[l], w);
  }

  // ----- bounded bypass -----

  /** A level's standing rises by at least what it is charged less what it is refunded. */
  lemma StandingGains(p: Setup, q: Share, s: Step, l: nat)
    requires p.Valid() && Shape(p, q) && l < p.Levels()
    ensures Standing(q, l) + Per(Gain(p, q, s, l), p.weights[l]) <= Standing(Next(p, q, s), l)
  {
    assert Per(0.0, p.weights[l]) == 0.0;
    if s.Requeues? {
      PerSum(Charge(s.cost), -Charge(s.cost), p.weights[l]);
    }
  }

  lemma {:induction false} StandingIsNet(p: Setup, run: Run, l: nat, a: nat, b: nat)
    requires IsRun(p, run) && l < p.Levels() && a <= b <= |run.steps|
    ensures Standing(run.states[a], l) + Per(Net(p, run, l, a, b), p.weights[l]) <= Standing(run.states[b], l)
  {
    if a == b {
      assert Per(0.0, p.weights[l]) == 0.0;
    } else {
      StandingIsNet(p, run, l, a, b - 1);
      assert Taken(p, run, b - 1);
      StandingGains(p, run.states[b - 1], run.steps[b - 1], l);
      PerSum(Net(p, run, l, a, b - 1), Gain(p, run.states[b - 1], run.steps[b - 1], l), p.weights[l]);
    }
  }

  /** A level waits: it has messages and is neither served nor refunded. */
  ghost predicate Waits(p: Setup, run: Run, i: nat, a: nat, b: nat)
    requires IsRun(p, run) && i < p.Levels() && a <= b <= |run.steps|
  {
    Backlogged(p, run, i, a, b) && forall k :: a <= k < b ==> Gain(p, run.states[k], run.steps[k], i) == 0.0
  }

  lemma {:induction false} WaitingClock(p: Setup, run: Run, i: nat, a: nat, b: nat)
    requires IsRun(p, run) && i < p.Levels() && a <= b <= |run.steps| && Waits(p, run, i, a, b)
    ensures run.states[b].vclock[i] == run.states[a].vclock[i]
  {
    if a < b {
      WaitingClock(p, run, i, a, b - 1);
      assert Taken(p, run, b - 1);
      assert run.states[b - 1].levels[i] != [] && Gain(p, run.states[b - 1], run.steps[b - 1], i) == 0.0;
      ClockGains(p, run.states[b - 1], run.steps[b - 1], i);
      assert Per(0.0, p.weights[i]) == 0.0;
    }
  }

  lemma KeptAt(p: Setup, run: Run, c: real, limits: seq<real>, n: nat, l: nat)
    requires IsRun(p, run) && ChargesWithin(run, c) && n <= |run.steps| && OwedWithin(p, run, limits, n)
    requires l < p.Levels()
    ensures LevelKept(p, run.states[n], c, limits, l)
  {
    AlwaysKept(p, run, c, limits, n);
  }

  /** A level is served only while its clock is no later than the waiting one's. */
  lemma ServedAt(p: Setup, run: Run, c: real, limits: seq<real>, i: nat, l: nat, a: nat, k: nat)
    requires IsRun(p, run) && ChargesWithin(run, c) && a <= k <= |run.steps| && OwedWithin(p, run, limits, a)
    requires i < p.Levels() && l < p.Levels() && Waits(p, run, i, a, k)
    requires Best(run.states[k], p.Levels()) == Some(l)
    ensures Standing(run.states[k], l) <= run.states[a].vfloor + Per(c, p.weights[i])
  {
    WaitingClock(p, run, i, a, k);
    assert run.states[k].levels[i] != [];
    KeptAt(p, run, c, limits, a, i);
  }

  lemma {:induction false} ServedBehind(p: Setup, run: Run, c: real, limits: seq<real>, i: nat, l: nat, a: nat, k: nat)
    requires IsRun(p, run) && ChargesWithin(run, c) && a <= k <= |run.steps| && OwedWithin(p, run, limits, a)
    requires i < p.Levels() && l < p.Levels() && Waits(p, run, i, a, k)
    requires Best(run.states[k], p.Levels()) == Some(l)
    ensures Per(Net(p, run, l, a, k), p.weights[l])
         <= Per(c, p.weights[i]) + Per(Slack(run.states[a], l, limits), p.weights[l])
  {
    ServedAt(p, run, c, limits, i, l, a, k);
    StandingIsNet(p, run, l, a, k);
    KeptAt(p, run, c, limits, a, l);
  }

  lemma BypassNothing(p: Setup, run: Run, c: real, limits: seq<real>, i: nat, l: nat, a: nat)
    requires IsRun(p, run) && ChargesWithin(run, c) && a <= |run.steps| && OwedWithin(p, run, limits, a)
    requires i < p.Levels() && l < p.Levels()
    ensures 0.0 <= Per(c, p.weights[i]) + Per(Slack(run.states[a], l, limits) + c, p.weights[l])
  {
    KeptAt(p, run, c, limits, a, l);
    assert Within(p, run.states[a], limits);
    PerOrder(0.0, c, p.weights[i]);
    PerOrder(0.0, Slack(run.states[a], l, limits) + c, p.weights[l]);
    assert Per(0.0, p.weights[i]) == 0.0 && Per(0.0, p.weights[l]) == 0.0;
  }

  /** Bounded bypass with refunds: while one level waits, any other is charged per weight, less refunds,
      at most a largest charge of the waiting level, one of its own, and the slack it began with. */
  lemma {:induction false} BypassWithRefunds(p: Setup, run: Run, c: real, limits: seq<real>, i: nat, l: nat, a: nat,
                                             b: nat)
    requires IsRun(p, run) && ChargesWithin(run, c) && a <= b <= |run.steps| && OwedWithin(p, run, limits, a)
    requires i < p.Levels() && l < p.Levels() && Waits(p, run, i, a, b)
    ensures Per(Net(p, run, l, a, b), p.weights[l])
         <= Per(c, p.weights[i]) + Per(Slack(run.states[a], l, limits) + c, p.weights[l])
  {
    if a == b {
      BypassNothing(p, run, c, limits, i, l, a);
      assert Per(0.0, p.weights[l]) == 0.0;
    } else {
      BypassWithRefunds(p, run, c, limits, i, l, a, b - 1);
      BypassStep(p, run, c, limits, i, l, a, b);
    }
  }

  lemma BypassStep(p: Setup, run: Run, c: real, limits: seq<real>, i: nat, l: nat, a: nat, b: nat)
    requires IsRun(p, run) && ChargesWithin(run, c) && a < b <= |run.steps| && OwedWithin(p, run, limits, a)
    requires i < p.Levels() && l < p.Levels() && Waits(p, run, i, a, b)
    requires Per(Net(p, run, l, a, b - 1), p.weights[l])
          <= Per(c, p.weights[i]) + Per(Slack(run.states[a], l, limits) + c, p.weights[l])
    ensures Per(Net(p, run, l, a, b), p.weights[l])
         <= Per(c, p.weights[i]) + Per(Slack(run.states[a], l, limits) + c, p.weights[l])
  {
    var w, gain := p.weights[l], Gain(p, run.states[b - 1], run.steps[b - 1], l);
    PerSum(Net(p, run, l, a, b - 1), gain, w);
    if run.steps[b - 1].Dequeues? && Best(run.states[b - 1], p.Levels()) == Some(l) {
      ServedBehind(p, run, c, limits, i, l, a, b - 1);
      PerSum(Slack(run.states[a], l, limits), c, w);
      PerOrder(gain, c, w);
    } else {
      PerOrder(gain, 0.0, w);
      assert Per(0.0, w) == 0.0;
    }
  }

  // ----- refunds that are not the charge -----

  /** The pull empties the level, and even charged the level is behind the floor. */
  ghost predicate Overtaken(p: Setup, q: Share, charge: Option<real>, l: nat)
    requires p.Valid() && Shape(p, q) && l < p.Levels()
  {
    |q.levels[l]| == 1 && q.vclock[l] + Per(Charge(charge), p.weights[l]) < q.vfloor
  }

  lemma PerSame(x: real, y: real, w: real)
    requires 0.0 < w
    ensures Per(x, w) == Per(y, w) <==> x == y
  {
    assert (x / w) * w == x && (y / w) * w == y;
  }

  /** A pull undone at once leaves the queue as it was, and its level in its place if and only if the
      refund is the charge. The one exception is a level that rejoins at a floor above its clock: that
      lift has to be refunded instead. */
  lemma {:induction false} RefundKeepsPlace(p: Setup, q: Share, charge: Option<real>, refund: Option<real>, l: nat)
    requires p.Valid() && Shape(p, q) && Best(q, p.Levels()) == Some(l)
    ensures var r := Requeue(p, Dequeue(p, q, charge), |q.out|, refund);
            && r.levels == q.levels && r.out == q.out
            && (r.vclock[l] == q.vclock[l] <==>
                  if Overtaken(p, q, charge, l) then Per(Charge(refund), p.weights[l]) == q.vfloor - q.vclock[l]
                  else Charge(refund) == Charge(charge))
  {
    var w := p.weights[l];
    var d := Dequeue(p, q, charge);
    var r := Requeue(p, d, |q.out|, refund);
    PerOrder(0.0, Charge(charge), w);
    PerSame(Charge(refund), Charge(charge), w);
    assert [q.levels[l][0]] + q.levels[l][1..] == q.levels[l];
    assert r.levels == q.levels;
    assert r.out == q.out;
  }

  /** Two messages in the first of two equal levels, n behind the floor, and one in the second. */
  ghost predicate Drifted(q: Share, a: Id, b: Id, c: Id, n: nat) {
    && q.levels == [[a, b], [c]] && q.out == [] && |q.excess| == 2
    && q.vclock == [-(n as real), 0.0] && q.vfloor == 0.0
  }

  const EVEN := Setup([1.0, 1.0])

  lemma DriftPull(q: Share, a: Id, b: Id, c: Id, n: nat)
    requires Drifted(q, a, b, c, n)
    ensures var d := Next(EVEN, q, Dequeues(Some(1.0)));
            && d.levels == [[b], [c]] && d.out == [Pull(a, 0, 1.0)] && d.vfloor == 0.0
            && d.vclock == [-(n as real) + 1.0, 0.0] && d.excess == q.excess
  {
    assert Best(q, 1) == Some(0) && Best(q, 2) == Some(0);
    assert q.levels[0] == [a, b] && [a, b][1..] == [b];
    var d := Next(EVEN, q, Dequeues(Some(1.0)));
    assert d.levels[0] == [b] && d.levels[1] == [c];
    assert d.vclock[0] == -(n as real) + 1.0 && d.vclock[1] == 0.0;
  }

  lemma DriftUndo(d: Share, a: Id, b: Id, c: Id, n: nat)
    requires d.levels == [[b], [c]] && d.out == [Pull(a, 0, 1.0)] && d.vfloor == 0.0 && |d.excess| == 2
    requires d.vclock == [-(n as real) + 1.0, 0.0]
    ensures Drifted(Next(EVEN, d, Requeues(0, Some(2.0))), a, b, c, n + 1)
  {
    var r := Next(EVEN, d, Requeues(0, Some(2.0)));
    assert r.levels[0] == [a] + [b] == [a, b] && r.levels[1] == [c];
    assert r.vclock[0] == -((n + 1) as real) && r.vclock[1] == 0.0;
    assert r.out == [];
  }

  lemma RunMore(p: Setup, run: Run, s: Step) returns (more: Run)
    requires IsRun(p, run)
    ensures var q := run.states[|run.steps|];
            more == Run(run.states + [Next(p, q, s)], run.steps + [s]) && IsRun(p, more)
  {
    var q := run.states[|run.steps|];
    more := Run(run.states + [Next(p, q, s)], run.steps + [s]);
    forall k | 0 <= k < |more.steps|
      ensures Follows(p, more, k)
    {
      assert k < |run.steps| ==> Taken(p, run, k);
    }
  }

  lemma EnqueuesAt(q: Share, id: Id, l: nat, first: seq<Id>, second: seq<Id>)
    requires q.levels == [first, second] && q.vclock == [0.0, 0.0] && q.vfloor == 0.0 && q.out == [] && |q.excess| == 2
    requires l < 2
    ensures var r := Next(EVEN, q, Enqueues(id, l));
            && r.levels == (if l == 0 then [first + [id], second] else [first, second + [id]])
            && r.vclock == [0.0, 0.0] && r.vfloor == 0.0 && r.out == [] && |r.excess| == 2
  {
  }

  lemma DriftStart(a: Id, b: Id, c: Id) returns (run: Run)
    ensures IsRun(EVEN, run) && |run.steps| == 3 && Drifted(run.states[3], a, b, c, 0)
  {
    run := Run([Start(EVEN)], []);
    assert Start(EVEN).levels == [[], []] && Start(EVEN).vclock == [0.0, 0.0];
    EnqueuesAt(run.states[0], a, 0, [], []);
    run := RunMore(EVEN, run, Enqueues(a, 0));
    EnqueuesAt(run.states[1], b, 0, [] + [a], []);
    run := RunMore(EVEN, run, Enqueues(b, 0));
    EnqueuesAt(run.states[2], c, 1, [] + [a] + [b], []);
    run := RunMore(EVEN, run, Enqueues(c, 1));
    assert [] + [a] + [b] == [a, b] && [] + [c] == [c];
  }

  /** A refund above the charge makes a level drift without bound: pulling at 1 ms and undoing at 2 ms n
      times leaves the first level n behind the floor, and the other level, though it has a message,
      was never served. */
  lemma {:induction false} RefundsDrift(a: Id, b: Id, c: Id, n: nat) returns (run: Run)
    ensures IsRun(EVEN, run) && |run.steps| == 3 + 2 * n && Drifted(run.states[|run.steps|], a, b, c, n)
  {
    if n == 0 {
      run := DriftStart(a, b, c);
    } else {
      run := RefundsDrift(a, b, c, n - 1);
      DriftPull(run.states[|run.steps|], a, b, c, n - 1);
      run := RunMore(EVEN, run, Dequeues(Some(1.0)));
      DriftUndo(run.states[|run.steps|], a, b, c, n - 1);
      run := RunMore(EVEN, run, Requeues(0, Some(2.0)));
    }
  }
}
