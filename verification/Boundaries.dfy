/** Tier boundaries: quantiles of the global histogram, kept within a hysteresis band. */
module Boundaries {
  import opened Options
  import opened Wire
  import opened Histogram
  import opened HistogramTolerance
  import Quantile

  /** Equality with a boundary enters the next tier. */
  function TierOf(b: seq<real>, value: real): (tier: nat)
    ensures tier <= |b|
  {
    if b == [] || value < b[0] then 0 else 1 + TierOf(b[1..], value)
  }

  predicate Increasing(b: seq<real>) {
    forall i :: 0 < i < |b| ==> b[i - 1] < b[i]
  }

  lemma {:induction false} IncreasingPair(b: seq<real>, i: nat, j: nat)
    requires Increasing(b) && i <= j < |b|
    ensures b[i] <= b[j]
  {
    if i < j {
      IncreasingPair(b, i, j - 1);
    }
  }

  /** A tier splits its boundaries: exactly those at or below the value come before it. */
  lemma {:induction false} TierSplits(b: seq<real>, value: real, i: nat)
    requires Increasing(b) && i < |b|
    ensures b[i] <= value <==> i < TierOf(b, value)
  {
    if value < b[0] {
      IncreasingPair(b, 0, i);
    } else if i > 0 {
      assert Increasing(b[1..]);
      TierSplits(b[1..], value, i - 1);
    }
  }

  /** Larger estimates never get smaller tiers. */
  lemma {:induction false} TierMonotone(b: seq<real>, v: real, w: real)
    requires v <= w
    ensures TierOf(b, v) <= TierOf(b, w)
  {
    if b != [] && b[0] <= v {
      TierMonotone(b[1..], v, w);
    }
  }

  datatype Snapshot = Snapshot(sequence: nat, boundaries: seq<real>)

  datatype Rule = Rule(layout: Layout, levels: nat, decay: real, hysteresis: real, minSamples: nat, every: nat)
  {
    ghost predicate Valid() {
      layout.Valid() && 1 <= levels <= 255 && 0.0 < decay <= 1.0 && 0.0 <= hysteresis < 1.0 && 1 <= every
    }
  }

  datatype Global = Global(hist: Hist, observations: nat, snapshot: Option<Snapshot>, snapshots: nat, degenerate: nat)

  predicate Usable(b: seq<real>) {
    b != [] && b[0] > 0.0 && Increasing(b)
  }

  function Share(i: nat, levels: nat): real
    requires levels != 0
  {
    (i + 1) as real / levels as real
  }

  function FreshBoundaries(r: Rule, h: Hist): seq<real>
    requires r.Valid() && |h.counts| == r.layout.Bins()
  {
    seq(r.levels - 1, i requires 0 <= i < r.levels - 1 => Quantile.Of(r.layout, h, Share(i, r.levels)))
  }

  function Distance(x: real, y: real): real {
    if x < y then y - x else x - y
  }

  /** Boundaries that moved by less than the band keep their old value. */
  function Held(latest: seq<real>, prior: seq<real>, hysteresis: real): seq<real>
    requires |prior| == |latest|
  {
    seq(|latest|, i requires 0 <= i < |latest| =>
      if Distance(latest[i], prior[i]) <= Mul(hysteresis, prior[i]) then prior[i] else latest[i])
  }

  function Refreshed(r: Rule, g: Global): Global
    requires r.Valid() && |g.hist.counts| == r.layout.Bins()
    requires g.snapshot.Some? ==> |g.snapshot.value.boundaries| == r.levels - 1
  {
    var latest := FreshBoundaries(r, g.hist);
    if !Usable(latest) then g.(degenerate := g.degenerate + 1)
    else if g.snapshot.None? then
      g.(snapshots := Next64(g.snapshots), snapshot := Some(Snapshot(Next64(g.snapshots), latest)))
    else
      var prior := g.snapshot.value.boundaries;
      var held := Held(latest, prior, r.hysteresis);
      var next := if Usable(held) then held else latest;
      if next == prior then g
      else g.(snapshots := Next64(g.snapshots), snapshot := Some(Snapshot(Next64(g.snapshots), next)))
  }

  predicate RefreshDue(r: Rule, g: Global)
    requires r.every != 0
  {
    r.levels > 1 && g.observations >= r.minSamples && (g.snapshot.None? || g.observations % r.every == 0)
  }

  function Learned(r: Rule, g: Global, value: real): Global
    requires r.Valid() && Steady(r, g)
  {
    g.(hist := Add(r.layout, g.hist, r.decay, value), observations := Next64(g.observations))
  }

  function Observe(r: Rule, g: Global, value: real): Global
    requires r.Valid() && Steady(r, g) && 0.0 <= value
  {
    AddAcceptable(r.layout, g.hist, r.decay, value);
    var n := Learned(r, g, value);
    if RefreshDue(r, n) then Refreshed(r, n) else n
  }

  function Start(r: Rule): Global
    requires r.Valid()
  {
    Global(Fresh(r.layout), 0, if r.levels == 1 then Some(Snapshot(0, [])) else None, 0, 0)
  }

  /** Exactly levels - 1 positive, strictly increasing boundaries. */
  ghost predicate Published(levels: nat, s: Snapshot) {
    |s.boundaries| == levels - 1 && (levels > 1 ==> Usable(s.boundaries))
  }

  /** What every state has, whatever snapshot was restored into it. */
  ghost predicate Steady(r: Rule, g: Global) {
    && Acceptable(r.layout, g.hist)
    && (g.snapshot.Some? ==> Published(r.levels, g.snapshot.value) && g.snapshot.value.sequence <= g.snapshots)
    && (r.levels == 1 ==> g.snapshot.Some?)
  }

  /** Enough was observed for the boundaries to be needed. */
  predicate Trusted(r: Rule, g: Global) {
    r.levels > 1 && r.minSamples <= g.observations
  }

  lemma ShareOrder(i: nat, levels: nat)
    requires i + 1 < levels
    ensures 0.0 < Share(i, levels) < 1.0
    ensures i + 2 < levels ==> Share(i, levels) < Share(i + 1, levels)
  {
    var n := levels as real;
    Quantile.DivOrder(0.0, (i + 1) as real, n);
    Quotient(0.0, n, 0.0);
    Quantile.DivOrder((i + 1) as real, n, n);
    Quotient(n, n, 1.0);
    Quantile.DivOrder((i + 1) as real, (i + 2) as real, n);
    assert Share(i, levels) == Div((i + 1) as real, n);
    assert Share(i + 1, levels) == Div((i + 2) as real, n);
    assert Div(0.0, n) == 0.0 && Div(n, n) == 1.0;
  }

  lemma ShareBelowTolerance(i: nat, levels: nat)
    requires i + 1 < levels <= 255
    ensures Share(i, levels) < 1.0 - TOLERANCE
  {
    var s, n := Share(i, levels), levels as real;
    assert s * n == (i + 1) as real;
    assert 1.0 - TOLERANCE <= s ==> Mul(1.0 - TOLERANCE, n) <= Mul(s, n) by {
      if 1.0 - TOLERANCE <= s {
        ScaleOrder(1.0 - TOLERANCE, s, n);
      }
    }
    assert Mul(s, n) == s * n && Mul(1.0 - TOLERANCE, n) == n - TOLERANCE * n;
  }

  /** When the counts are near the total, fresh boundaries are usable. */
  lemma FreshUsable(r: Rule, h: Hist)
    requires r.Valid() && Quantile.Weighs(r.layout, h) && NearlyFull(h) && r.levels > 1
    ensures Usable(FreshBoundaries(r, h))
  {
    var b := FreshBoundaries(r, h);
    ShareOrder(0, r.levels);
    Quantile.QuantilePositive(r.layout, h, Share(0, r.levels));
    forall i | 0 < i < |b|
      ensures b[i - 1] < b[i]
    {
      ShareOrder(i - 1, r.levels);
      ShareOrder(i, r.levels);
      ShareBelowTolerance(i - 1, r.levels);
      ShareHeld(h, Share(i - 1, r.levels));
      Quantile.QuantileIncreasing(r.layout, h, Share(i - 1, r.levels), Share(i, r.levels));
    }
  }

  /** After a refresh every published boundary is within the hysteresis band of its quantile. */
  lemma RefreshWithinBand(r: Rule, g: Global)
    requires r.Valid() && Steady(r, g) && NearlyFull(g.hist) && r.levels > 1
    ensures var s, latest := Refreshed(r, g).snapshot, FreshBoundaries(r, g.hist);
            && s.Some? && |s.value.boundaries| == |latest|
            && forall i :: 0 <= i < |latest| ==>
                 Distance(latest[i], s.value.boundaries[i]) <= Mul(r.hysteresis, s.value.boundaries[i])
  {
    FreshUsable(r, g.hist);
    var latest := FreshBoundaries(r, g.hist);
    forall i | 0 <= i < |latest|
      ensures 0.0 <= Mul(r.hysteresis, latest[i])
    {
      IncreasingPair(latest, 0, i);
      NonNegativeProduct(r.hysteresis, latest[i]);
    }
  }

  /** At every refresh interval, and as soon as the histogram is trusted, the boundaries are brought
      within the band of the current quantiles. The count is 64 bits wide and can wrap. */
  lemma ObserveRefreshes(r: Rule, g: Global, value: real)
    requires r.Valid() && Steady(r, g) && 0.0 <= value && r.levels > 1
    requires r.minSamples <= Next64(g.observations)
    requires g.snapshot.None? || Next64(g.observations) % r.every == 0
    ensures var d := Observe(r, g, value);
            && d.snapshot.Some? && |d.snapshot.value.boundaries| == r.levels - 1
            && forall i :: 0 <= i < r.levels - 1 ==>
                 Distance(FreshBoundaries(r, d.hist)[i], d.snapshot.value.boundaries[i])
                   <= Mul(r.hysteresis, d.snapshot.value.boundaries[i])
  {
    AddAcceptable(r.layout, g.hist, r.decay, value);
    AddNearlyFull(r.layout, g.hist, r.decay, value);
    RefreshWithinBand(r, Learned(r, g, value));
  }

  /** Boundaries are first published exactly when the count, after it may have wrapped, is enough. */
  lemma FirstPublication(r: Rule, g: Global, value: real)
    requires r.Valid() && Steady(r, g) && 0.0 <= value && r.levels > 1 && g.snapshot.None?
    ensures Observe(r, g, value).snapshot.Some? <==> r.minSamples <= Next64(g.observations)
  {
    AddAcceptable(r.layout, g.hist, r.decay, value);
    AddNearlyFull(r.layout, g.hist, r.decay, value);
    FreshUsable(r, Learned(r, g, value).hist);
  }

  /** No observation publishes malformed boundaries. */
  lemma ObserveSteady(r: Rule, g: Global, value: real)
    requires r.Valid() && Steady(r, g) && 0.0 <= value
    ensures Steady(r, Observe(r, g, value))
  {
    AddAcceptable(r.layout, g.hist, r.decay, value);
  }

  /** Whatever was restored, an observation makes no degenerate refresh, and leaves a trusted
      histogram with boundaries. */
  lemma ObserveNeverDegenerate(r: Rule, g: Global, value: real)
    requires r.Valid() && Steady(r, g) && 0.0 <= value
    ensures var d := Observe(r, g, value);
            && d.degenerate == g.degenerate
            && d.observations == Next64(g.observations)
            && (d.snapshots == g.snapshots || d.snapshots == Next64(g.snapshots))
            && (Trusted(r, d) ==> d.snapshot.Some?)
  {
    AddAcceptable(r.layout, g.hist, r.decay, value);
    AddNearlyFull(r.layout, g.hist, r.decay, value);
    var n := Learned(r, g, value);
    if RefreshDue(r, n) {
      FreshUsable(r, n.hist);
    }
  }

  lemma StartSteady(r: Rule)
    requires r.Valid()
    ensures Steady(r, Start(r))
  {
    FreshAcceptable(r.layout);
  }

  // ----- restoring -----

  function Later(x: nat, y: nat): nat {
    if x < y then y else x
  }

  /** A loaded snapshot replaces the histogram and the boundaries, even by their absence. */
  function Reloaded(levels: nat, g: Global, hist: Hist, observations: nat, boundaries: Option<Snapshot>): Global {
    var h := g.(hist := hist, observations := observations);
    if boundaries.Some? then
      h.(snapshots := Later(g.snapshots, boundaries.value.sequence), snapshot := boundaries)
    else if levels > 1 then h.(snapshot := None)
    else h
  }

  /** What a loader lets through. */
  ghost predicate Reloadable(r: Rule, hist: Hist, boundaries: Option<Snapshot>) {
    Acceptable(r.layout, hist) && (boundaries.Some? ==> Published(r.levels, boundaries.value))
  }

  datatype Change = Duration(value: real) | Reload(hist: Hist, observations: nat, boundaries: Option<Snapshot>)

  ghost predicate Sensible(r: Rule, c: Change) {
    match c
    case Duration(value) => 0.0 <= value
    case Reload(hist, _, boundaries) => Reloadable(r, hist, boundaries)
  }

  ghost function Changed(r: Rule, g: Global, c: Change): (d: Global)
    requires r.Valid() && Steady(r, g) && Sensible(r, c)
    ensures Steady(r, d) && d.degenerate == g.degenerate
    ensures c.Duration? && Trusted(r, d) ==> d.snapshot.Some?
  {
    match c
    case Duration(value) =>
      ObserveSteady(r, g, value);
      ObserveNeverDegenerate(r, g, value);
      Observe(r, g, value)
    case Reload(hist, observations, boundaries) => Reloaded(r.levels, g, hist, observations, boundaries)
  }

  /** The global state after a history of durations and loads. Whatever was loaded, no refresh was
      degenerate, published boundaries are levels - 1 positive, strictly increasing ones, and once a
      duration was learned after the last load a trusted histogram has them. */
  ghost function After(r: Rule, changes: seq<Change>): (g: Global)
    requires r.Valid() && forall i :: 0 <= i < |changes| ==> Sensible(r, changes[i])
    ensures Steady(r, g) && g.degenerate == 0
    ensures g.snapshot.Some? ==> Published(r.levels, g.snapshot.value)
    ensures changes != [] && changes[|changes| - 1].Duration? && Trusted(r, g) ==> g.snapshot.Some?
  {
    if changes == [] then StartSteady(r); Start(r)
    else Changed(r, After(r, changes[..|changes| - 1]), changes[|changes| - 1])
  }

  /** A restored count can wrap: after a load of the largest count without boundaries, a duration
      is learned and nothing is published. */
  lemma {:induction false} WrappedCountPublishesNothing(r: Rule, h: Hist, value: real, changes: seq<Change>)
    requires r.Valid() && r.levels > 1 && 1 <= r.minSamples && Acceptable(r.layout, h) && 0.0 <= value
    requires changes == [Reload(h, TWO_64 - 1, None), Duration(value)]
    ensures After(r, changes).observations == 0 && After(r, changes).snapshot.None?
  {
    var g := Changed(r, After(r, []), changes[0]);
    assert changes[..1][..0] == [];
    assert After(r, changes[..1]) == g;
    FirstPublication(r, g, value);
    ObserveNeverDegenerate(r, g, value);
  }
}
