/** Pausing aging promotes at most one message per level and pass. */
module SchedulerPausing {
  import opened SchedulerModel

  /** A queue that lost at most its head after gaining at most one message at its end. */
  ghost predicate Shifted(q: seq<Waiting>, w: seq<Waiting>, a: nat, r: seq<Waiting>) {
    |w| <= 1 && a <= 1 && a <= |q + w| && r == (q + w)[a..]
  }

  /** What the turns from `level` down to 1 may do to level `l`, taking queue `q` to `r`. */
  ghost predicate Fate(level: nat, l: nat, q: seq<Waiting>, w: seq<Waiting>, a: nat, r: seq<Waiting>) {
    && Shifted(q, w, a, r)
    && (l >= level ==> w == [])
    && (l > level || l == 0 ==> a == 0)
  }

  lemma FateStep(level: nat, l: nat, q: seq<Waiting>, w: seq<Waiting>, a: nat, m: seq<Waiting>,
                 v: seq<Waiting>, b: nat, r: seq<Waiting>) returns (u: seq<Waiting>, n: nat)
    requires 1 <= level && Shifted(q, w, a, m) && (l != level - 1 ==> w == []) && (l != level ==> a == 0)
    requires Fate(level - 1, l, m, v, b, r)
    ensures Fate(level, l, q, u, n, r)
  {
    u, n := w + v, a + b;
    assert m + v == (q + u)[a..];
    assert (q + u)[a..][b..] == (q + u)[n..];
  }

  lemma FateUntouched(l: nat, q: seq<Waiting>)
    ensures Fate(0, l, q, [], 0, q)
  {
    assert (q + [])[0..] == q;
  }

  /** One level's turn in a pass: skipped when paused, and otherwise one promotion at most. */
  ghost function Turn(p: Setup, s: State, level: nat): (t: State)
    requires Shape(p, s) && p.compress != 0.0 && 1 <= level < p.levels
    ensures Shape(p, t)
  {
    if Paused(p, s, level) then s else AgeLevel(p, s, level)
  }

  lemma TurnShifts(p: Setup, s: State, level: nat, l: nat) returns (w: seq<Waiting>, a: nat)
    requires Shape(p, s) && p.compress != 0.0 && p.policy.pausing && 1 <= level < p.levels && l < p.levels
    ensures Shifted(s.queues[l], w, a, Turn(p, s, level).queues[l])
    ensures l != level - 1 ==> w == []
    ensures l != level ==> a == 0
  {
    var t := Turn(p, s, level);
    var promotes := !Paused(p, s, level) && Due(p, s, level);
    w, a := [], 0;
    if promotes {
      PlaceDropped(p, s, level);
      if l == level {
        a := 1;
      } else if l == level - 1 {
        w := [Waiting(s.queues[level][0].index, s.now, true)];
      }
    }
    assert (s.queues[l] + w)[0..] == s.queues[l] + w;
    assert s.queues[l] + [] == s.queues[l];
  }

  /** The state after one level's turn, and what the turn did to level `l`. */
  lemma TakeTurn(p: Setup, s: State, level: nat, l: nat) returns (t: State, w: seq<Waiting>, a: nat)
    requires Shape(p, s) && p.compress != 0.0 && p.policy.pausing && 1 <= level < p.levels && l < p.levels
    ensures Shape(p, t) && AgeDown(p, s, level) == AgeDown(p, t, level - 1)
    ensures Shifted(s.queues[l], w, a, t.queues[l])
    ensures (l != level - 1 ==> w == []) && (l != level ==> a == 0)
  {
    t := Turn(p, s, level);
    w, a := TurnShifts(p, s, level, l);
  }

  lemma {:induction false} AgeDownShifts(p: Setup, s: State, level: nat, l: nat, r: State)
      returns (w: seq<Waiting>, a: nat)
    requires Shape(p, s) && p.compress != 0.0 && p.policy.pausing && level < p.levels && l < p.levels
    requires r == AgeDown(p, s, level)
    ensures l < |r.queues| && Fate(level, l, s.queues[l], w, a, r.queues[l])
    decreases level, 1
  {
    if level == 0 {
      w, a := [], 0;
      FateUntouched(l, s.queues[l]);
    } else {
      var t, v, b := TakeTurn(p, s, level, l);
      w, a := TakeRest(p, s.queues[l], t, level, l, v, b, r);
    }
  }

  lemma {:induction false} TakeRest(p: Setup, q: seq<Waiting>, t: State, level: nat, l: nat, v: seq<Waiting>, b: nat,
                                    r: State)
      returns (w: seq<Waiting>, a: nat)
    requires Shape(p, t) && p.compress != 0.0 && p.policy.pausing && 1 <= level < p.levels && l < p.levels
    requires Shifted(q, v, b, t.queues[l]) && (l != level - 1 ==> v == []) && (l != level ==> b == 0)
    requires r == AgeDown(p, t, level - 1)
    ensures l < |r.queues| && Fate(level, l, q, w, a, r.queues[l])
    decreases level, 0
  {
    w, a := AgeDownShifts(p, t, level - 1, l, r);
    w, a := FateStep(level, l, q, v, b, t.queues[l], w, a, r.queues[l]);
  }

  /** After a pausing pass each level is what it was, with at most one message added at its end and
      at most its head gone: nothing else moves, the bottom level gains nothing and level 0 loses nothing. */
  lemma PausingPass(p: Setup, s: State, l: nat) returns (w: seq<Waiting>, a: nat)
    requires Shape(p, s) && p.compress != 0.0 && p.policy.pausing && 1 <= p.levels && l < p.levels
    ensures Shifted(s.queues[l], w, a, Age(p, s).queues[l])
    ensures l == p.levels - 1 ==> w == []
    ensures l == 0 ==> a == 0
  {
    w, a := AgeDownShifts(p, s, p.levels - 1, l, AgeDown(p, s, p.levels - 1));
  }
}
