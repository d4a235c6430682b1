/** What every small action of the simulator keeps: each arrived row is in exactly one place,
    counters match the queues, and recorded waits and latencies are consistent. */
module SchedulerInvariants {
  import opened SchedulerModel

  /** The indivisible actions of the simulator. */
  datatype Action =
    | Move(at: real)          // advance to an event time
    | Completes
    | Arrives
    | Serves(level: nat)
    | Promotes(level: nat)
    | Rearms(at: real)        // set the next aging time

  ghost predicate Enabled(p: Setup, s: State, a: Action)
    requires p.Valid() && Shape(p, s)
  {
    match a
    case Move(_) => true
    case Completes => s.running != []
    case Arrives => s.next < |p.rows|
    case Serves(l) => s.idle > 0 && IsChoice(p, s, l)
    case Promotes(l) => 1 <= l < p.levels && s.queues[l] != []
    case Rearms(_) => true
  }

  ghost function Do(p: Setup, s: State, a: Action): (r: State)
    requires p.Valid() && Shape(p, s) && Enabled(p, s, a)
    ensures Shape(p, r)
  {
    match a
    case Move(t) => MoveTo(s, t)
    case Completes => Complete(p, s)
    case Arrives => ArriveShape(p, s); Arrive(p, s)
    case Serves(l) => ServeShape(p, s, l); Serve(p, s, l)
    case Promotes(l) => PromoteShape(p, s, l); Promote(p, s, l)
    case Rearms(t) => s.(nextAging := t)
  }

  // ----- counting where a row is -----

  ghost function Hit(a: nat, b: nat): nat {
    if a == b then 1 else 0
  }

  ghost function InLevel(q: seq<Waiting>, i: nat): nat {
    if q == [] then 0 else InLevel(q[..|q| - 1], i) + Hit(q[|q| - 1].index, i)
  }

  ghost function InQueues(qs: seq<seq<Waiting>>, i: nat): nat {
    if qs == [] then 0 else InQueues(qs[..|qs| - 1], i) + InLevel(qs[|qs| - 1], i)
  }

  ghost function InRunning(r: seq<Completion>, i: nat): nat {
    if r == [] then 0 else Hit(r[0].index, i) + InRunning(r[1..], i)
  }

  ghost function Promoted(q: seq<Waiting>): nat {
    if q == [] then 0 else Promoted(q[..|q| - 1]) + (if q[|q| - 1].promoted then 1 else 0)
  }

  lemma {:induction false} PopFront(q: seq<Waiting>, i: nat)
    requires q != []
    ensures InLevel(q, i) == Hit(q[0].index, i) + InLevel(q[1..], i)
    ensures Promoted(q) == (if q[0].promoted then 1 else 0) + Promoted(q[1..])
  {
    if |q| > 1 {
      PopFront(q[..|q| - 1], i);
      assert q[..|q| - 1][1..] == q[1..][..|q| - 2];
    }
  }

  lemma {:induction false} PushBack(q: seq<Waiting>, w: Waiting, i: nat)
    ensures InLevel(q + [w], i) == InLevel(q, i) + Hit(w.index, i)
    ensures Promoted(q + [w]) == Promoted(q) + (if w.promoted then 1 else 0)
  {
    assert (q + [w])[..|q|] == q;
  }

  lemma {:induction false} UpdateLevel(qs: seq<seq<Waiting>>, l: nat, q: seq<Waiting>, i: nat)
    requires l < |qs|
    ensures InQueues(qs[l := q], i) == InQueues(qs, i) - InLevel(qs[l], i) + InLevel(q, i)
  {
    var n := |qs| - 1;
    if l == n {
      assert qs[l := q][..n] == qs[..n];
    } else {
      UpdateLevel(qs[..n], l, q, i);
      assert qs[l := q][..n] == qs[..n][l := q];
    }
  }

  lemma {:induction false} InsertCounts(c: Completion, r: seq<Completion>, i: nat)
    ensures InRunning(Insert(c, r), i) == InRunning(r, i) + Hit(c.index, i)
  {
    if r == [] || Earlier(c, r[0]) {
      assert ([c] + r)[1..] == r;
    } else {
      InsertCounts(c, r[1..], i);
      assert Insert(c, r)[1..] == Insert(c, r[1..]);
    }
  }

  lemma {:induction false} RunningCounted(r: seq<Completion>, k: nat)
    requires k < |r|
    ensures InRunning(r, r[k].index) >= 1
  {
    if k > 0 {
      RunningCounted(r[1..], k - 1);
    }
  }

  lemma {:induction false} LevelCounted(q: seq<Waiting>, k: nat)
    requires k < |q|
    ensures InLevel(q, q[k].index) >= 1
  {
    if k < |q| - 1 {
      LevelCounted(q[..|q| - 1], k);
    }
  }

  lemma {:induction false} QueueCounted(qs: seq<seq<Waiting>>, l: nat, i: nat)
    requires l < |qs|
    ensures InQueues(qs, i) >= InLevel(qs[l], i)
  {
    if l < |qs| - 1 {
      QueueCounted(qs[..|qs| - 1], l, i);
    }
  }

  lemma {:induction false} EmptyCounts(qs: seq<seq<Waiting>>, i: nat)
    requires forall l :: 0 <= l < |qs| ==> qs[l] == []
    ensures InQueues(qs, i) == 0
  {
    if qs != [] {
      EmptyCounts(qs[..|qs| - 1], i);
    }
  }

  // ----- every row in exactly one place -----

  ghost function Places(s: State, i: nat): nat {
    InQueues(s.queues, i) + InRunning(s.running, i) + multiset(s.finished)[i]
  }

  /** The tallies of a state: workers, rows and promoted messages. */
  ghost predicate Tallied(p: Setup, s: State) {
    && 0 <= s.idle
    && s.idle + |s.running| == p.workers
    && |s.finished| + |s.running| + s.queued == s.next
    && |s.promotedIn| == |s.queues|
    && (forall l :: 0 <= l < |s.queues| ==> s.promotedIn[l] == Promoted(s.queues[l]))
    && Ordered(s.running)
  }

  ghost predicate Accounted(p: Setup, s: State) {
    Tallied(p, s) && forall i: nat :: Places(s, i) == if i < s.next then 1 else 0
  }

  lemma ServePlaces(p: Setup, s: State, l: nat, i: nat)
    requires p.Valid() && Shape(p, s) && l < p.levels && s.queues[l] != []
    ensures Places(Serve(p, s, l), i) == Places(s, i)
  {
    var w := s.queues[l][0];
    UpdateLevel(s.queues, l, s.queues[l][1..], i);
    PopFront(s.queues[l], i);
    InsertCounts(Completion(s.now + p.rows[w.index].durationMs, w.index), s.running, i);
  }

  lemma ServePromoted(p: Setup, s: State, l: nat, m: nat)
    requires p.Valid() && Shape(p, s) && l < p.levels && s.queues[l] != [] && m < p.levels
    requires s.promotedIn[m] == Promoted(s.queues[m])
    ensures Serve(p, s, l).promotedIn[m] == Promoted(Serve(p, s, l).queues[m])
  {
    PopFront(s.queues[l], 0);
  }

  lemma ServeStarts(p: Setup, s: State, l: nat)
    requires p.Valid() && Shape(p, s) && Ordered(s.running) && l < p.levels && s.queues[l] != []
    ensures var t := Serve(p, s, l);
            && t.idle == s.idle - 1 && |t.running| == |s.running| + 1 && Ordered(t.running)
            && t.finished == s.finished && t.next == s.next && t.queued == s.queued - 1
            && |t.promotedIn| == |t.queues| == |s.queues|
  {
    var w := s.queues[l][0];
    var c := Completion(s.now + p.rows[w.index].durationMs, w.index);
    InsertElements(c, s.running);
    InsertOrdered(c, s.running);
  }

  lemma ServeTallied(p: Setup, s: State, l: nat)
    requires p.Valid() && Shape(p, s) && Tallied(p, s) && s.idle > 0 && l < p.levels && s.queues[l] != []
    ensures Tallied(p, Serve(p, s, l))
  {
    ServeStarts(p, s, l);
    forall m | 0 <= m < |s.queues|
      ensures Serve(p, s, l).promotedIn[m] == Promoted(Serve(p, s, l).queues[m])
    {
      ServePromoted(p, s, l, m);
    }
  }

  lemma ServeAccounted(p: Setup, s: State, l: nat)
    requires p.Valid() && Shape(p, s) && Accounted(p, s)
    requires s.idle > 0 && l < p.levels && s.queues[l] != []
    ensures Accounted(p, Serve(p, s, l))
  {
    ServeTallied(p, s, l);
    forall i: nat
      ensures Places(Serve(p, s, l), i) == Places(s, i)
    {
      ServePlaces(p, s, l, i);
    }
  }

  lemma CompleteAccounted(p: Setup, s: State)
    requires p.Valid() && Shape(p, s) && Accounted(p, s) && s.running != []
    ensures Accounted(p, Complete(p, s))
  {
    var t := Complete(p, s);
    forall i: nat
      ensures Places(t, i) == Places(s, i)
    {
    }
  }

  lemma ArriveAccounted(p: Setup, s: State)
    requires p.Valid() && Shape(p, s) && Accounted(p, s) && s.next < |p.rows|
    ensures Accounted(p, Arrive(p, s))
  {
    var t := Arrive(p, s);
    var l := p.routes[s.next].tier;
    var w := Waiting(s.next, s.now, false);
    forall i: nat
      ensures Places(t, i) == Places(s, i) + Hit(s.next, i)
    {
      UpdateLevel(s.queues, l, s.queues[l] + [w], i);
      PushBack(s.queues[l], w, i);
    }
    PushBack(s.queues[l], w, 0);
  }

  lemma PromoteAccounted(p: Setup, s: State, l: nat)
    requires p.Valid() && Shape(p, s) && Accounted(p, s) && 1 <= l < p.levels && s.queues[l] != []
    ensures Accounted(p, Promote(p, s, l))
  {
    var t := Promote(p, s, l);
    var w := s.queues[l][0];
    var up := Waiting(w.index, s.now, true);
    var dropped := s.queues[l := s.queues[l][1..]];
    forall i: nat
      ensures Places(t, i) == Places(s, i)
    {
      UpdateLevel(s.queues, l, s.queues[l][1..], i);
      PopFront(s.queues[l], i);
      UpdateLevel(dropped, l - 1, s.queues[l - 1] + [up], i);
      PushBack(s.queues[l - 1], up, i);
    }
    PopFront(s.queues[l], 0);
    PushBack(s.queues[l - 1], up, 0);
  }

  /** Exactly one place for every arrived row, after every action. */
  lemma DoAccounted(p: Setup, s: State, a: Action)
    requires p.Valid() && Shape(p, s) && Enabled(p, s, a) && Accounted(p, s)
    ensures Accounted(p, Do(p, s, a))
  {
    match a
    case Move(t) =>
      forall i: nat
        ensures Places(Do(p, s, a), i) == Places(s, i)
      {
      }
    case Completes => CompleteAccounted(p, s);
    case Arrives => ArriveAccounted(p, s);
    case Serves(l) => ServeAccounted(p, s, l);
    case Promotes(l) => PromoteAccounted(p, s, l);
    case Rearms(t) =>
      forall i: nat
        ensures Places(Do(p, s, a), i) == Places(s, i)
      {
      }
  }

  /** A waiting row is neither running nor finished. */
  lemma WaitingElsewhere(p: Setup, s: State, l: nat, k: nat)
    requires p.Valid() && Shape(p, s) && Accounted(p, s) && l < p.levels && k < |s.queues[l]|
    ensures var i := s.queues[l][k].index;
            && i < s.next
            && i !in s.finished
            && forall j :: 0 <= j < |s.running| ==> s.running[j].index != i
  {
    var i := s.queues[l][k].index;
    LevelCounted(s.queues[l], k);
    QueueCounted(s.queues, l, i);
    assert Places(s, i) == 1;
    forall j | 0 <= j < |s.running|
      ensures s.running[j].index != i
    {
      RunningCounted(s.running, j);
    }
  }

  /** A running row is not finished, and no other worker runs it. */
  lemma RunningElsewhere(p: Setup, s: State)
    requires p.Valid() && Shape(p, s) && Accounted(p, s) && s.running != []
    ensures var i := s.running[0].index;
            && i < s.next
            && i !in s.finished
            && forall j :: 1 <= j < |s.running| ==> s.running[j].index != i
  {
    var i := s.running[0].index;
    RunningCounted(s.running, 0);
    assert Places(s, i) == 1;
    forall j | 1 <= j < |s.running|
      ensures s.running[j].index != i
    {
      RunningCounted(s.running[1..], j - 1);
    }
  }

  // ----- recorded waits and latencies -----

  ghost predicate Recorded(p: Setup, s: State)
    requires p.Valid() && Shape(p, s)
  {
    && (forall k :: 0 <= k < |s.running| ==>
          var c := s.running[k];
          0.0 <= s.wait[c.index] && c.end == p.Arrival(c.index) + s.wait[c.index] + p.rows[c.index].durationMs)
    && (forall i :: 0 <= i < |p.rows| && i in s.finished ==>
          0.0 <= s.wait[i] && s.latency[i] == s.wait[i] + p.rows[i].durationMs)
  }

  lemma ServeRecorded(p: Setup, s: State, l: nat)
    requires p.Valid() && Shape(p, s) && Accounted(p, s) && Recorded(p, s)
    requires s.idle > 0 && l < p.levels && s.queues[l] != []
    requires p.Arrival(s.queues[l][0].index) <= s.now
    ensures Shape(p, Serve(p, s, l)) && Recorded(p, Serve(p, s, l))
  {
    ServeShape(p, s, l);
    var t := Serve(p, s, l);
    var w := s.queues[l][0];
    var c := Completion(s.now + p.rows[w.index].durationMs, w.index);
    WaitingElsewhere(p, s, l, 0);
    InsertMembers(c, s.running);
    forall k | 0 <= k < |t.running|
      ensures var d := t.running[k];
              0.0 <= t.wait[d.index] && d.end == p.Arrival(d.index) + t.wait[d.index] + p.rows[d.index].durationMs
    {
      var d := t.running[k];
      assert d in t.running;
      if d != c {
        var j :| 0 <= j < |s.running| && s.running[j] == d;
      }
    }
  }

  lemma CompleteRecorded(p: Setup, s: State)
    requires p.Valid() && Shape(p, s) && Accounted(p, s) && Recorded(p, s) && s.running != []
    ensures Recorded(p, Complete(p, s))
  {
    RunningElsewhere(p, s);
    var t := Complete(p, s);
    var c := s.running[0];
    forall k | 0 <= k < |t.running|
      ensures var d := t.running[k];
              0.0 <= t.wait[d.index] && d.end == p.Arrival(d.index) + t.wait[d.index] + p.rows[d.index].durationMs
    {
      assert t.running[k] == s.running[k + 1];
    }
    forall i | 0 <= i < |p.rows| && i in t.finished
      ensures 0.0 <= t.wait[i] && t.latency[i] == t.wait[i] + p.rows[i].durationMs
    {
      if i != c.index {
        assert i in s.finished;
      }
    }
  }
}
