/** Histograms whose total may differ slightly from their counts, as a restored snapshot allows:
    every operation keeps the tolerance. */
module HistogramTolerance {
  import opened Histogram

  const MAX_SCALE: real := RENORMALIZE_AT * 2.0
  const TOLERANCE: real := 0.000001

  predicate Near(sum: real, total: real) {
    && sum - total <= Mul(TOLERANCE, AtLeastOne(total))
    && total - sum <= Mul(TOLERANCE, AtLeastOne(total))
  }

  function AtLeastOne(x: real): real {
    if x < 1.0 then 1.0 else x
  }

  /** What a snapshot's histogram must satisfy to be restored. */
  predicate Consistent(h: Hist) {
    && NonNegative(h.counts)
    && 0.0 <= h.total && 0.0 <= h.sum && 0.0 <= h.censored
    && 1.0 <= h.scale <= MAX_SCALE
    && Near(Sum(h.counts), h.total)
  }

  ghost predicate Acceptable(l: Layout, h: Hist) {
    l.Valid() && |h.counts| == l.Bins() && Consistent(h)
  }

  lemma ValidAcceptable(l: Layout, h: Hist)
    requires Valid(l, h)
    ensures Acceptable(l, h)
  {
    SumNonNegative(h.counts);
  }

  lemma FreshAcceptable(l: Layout)
    requires l.Valid()
    ensures Acceptable(l, Fresh(l))
  {
    FreshValid(l);
    ValidAcceptable(l, Fresh(l));
  }

  lemma NearShifted(sum: real, total: real, x: real)
    requires Near(sum, total) && 0.0 <= x
    ensures Near(sum + x, total + x)
  {
  }

  lemma Associate(x: real, y: real, z: real)
    ensures Mul(Mul(x, y), z) == Mul(x, Mul(y, z))
  {
  }

  lemma ScaleOrder(x: real, y: real, f: real)
    requires x <= y && 0.0 <= f
    ensures Mul(x, f) <= Mul(y, f)
  {
    NonNegativeProduct(y - x, f);
    Subtract(y, x, f);
  }

  lemma Subtract(x: real, y: real, k: real)
    ensures Mul(x - y, k) == Mul(x, k) - Mul(y, k)
  {
    Distribute(x - y, y, k);
  }

  lemma StrictOrder(x: real, y: real, f: real)
    requires x < y && 0.0 < f
    ensures Mul(x, f) < Mul(y, f)
  {
    Subtract(y, x, f);
    assert (y - x) * f > 0.0;
  }

  lemma ScaledBound(total: real, f: real)
    requires 0.0 <= total && 0.0 <= f <= 1.0
    ensures Mul(AtLeastOne(total), f) <= AtLeastOne(Mul(total, f))
  {
    if total < 1.0 {
      assert Mul(1.0, f) == f;
    }
  }

  lemma ScaledDifference(x: real, y: real, total: real, f: real)
    requires x - y <= Mul(TOLERANCE, AtLeastOne(total)) && 0.0 <= total && 0.0 <= f <= 1.0
    ensures Mul(x, f) - Mul(y, f) <= Mul(TOLERANCE, AtLeastOne(Mul(total, f)))
  {
    var m := AtLeastOne(total);
    Subtract(x, y, f);
    ScaleOrder(x - y, Mul(TOLERANCE, m), f);
    Associate(TOLERANCE, m, f);
    ScaledBound(total, f);
    Commute(TOLERANCE, Mul(m, f));
    Commute(TOLERANCE, AtLeastOne(Mul(total, f)));
    ScaleOrder(Mul(m, f), AtLeastOne(Mul(total, f)), TOLERANCE);
  }

  lemma Commute(x: real, y: real)
    ensures Mul(x, y) == Mul(y, x)
  {
  }

  /** Scaling both by a factor of at most one keeps the tolerance. */
  lemma NearScaled(sum: real, total: real, f: real)
    requires Near(sum, total) && 0.0 <= total && 0.0 <= f <= 1.0
    ensures Near(Mul(sum, f), Mul(total, f))
  {
    ScaledDifference(sum, total, total, f);
    ScaledDifference(total, sum, total, f);
  }

  lemma DivIsMul(x: real, k: real)
    requires 1.0 <= k
    ensures 0.0 < 1.0 / k <= 1.0
    ensures Div(x, k) == Mul(x, 1.0 / k)
  {
    var r := 1.0 / k;
    assert r * k == 1.0;
    assert r <= 0.0 ==> r * k <= 0.0;
    assert r > 1.0 ==> r * k > k;
  }

  lemma NearDivided(sum: real, total: real, k: real)
    requires Near(sum, total) && 0.0 <= total && 1.0 <= k
    ensures Near(Div(sum, k), Div(total, k))
  {
    DivIsMul(sum, k);
    DivIsMul(total, k);
    NearScaled(sum, total, 1.0 / k);
  }

  lemma RenormalizedConsistent(h: Hist)
    requires Consistent(h.(scale := 1.0)) && 1.0 <= h.scale
    ensures Consistent(Renormalized(h))
  {
    SumOver(h.counts, h.scale);
    NearDivided(Sum(h.counts), h.total, h.scale);
    Positive(h.total, h.scale);
    Positive(h.sum, h.scale);
    Positive(h.censored, h.scale);
    forall i | 0 <= i < |h.counts|
      ensures 0.0 <= Over(h.counts, h.scale)[i]
    {
      Positive(h.counts[i], h.scale);
    }
  }

  lemma AddAcceptable(l: Layout, h: Hist, decay: real, value: real)
    requires Acceptable(l, h) && 0.0 < decay <= 1.0 && 0.0 <= value
    ensures Acceptable(l, Add(l, h, decay, value))
  {
    ScaleGrows(h.scale, decay);
    EdgesPositive(l, l.Bins());
    var v := Clamped(l, value);
    SumUpdate(h.counts, l.Bin(v), h.scale);
    Positive(v, h.scale);
    NearShifted(Sum(h.counts), h.total, h.scale);
    RenormalizedConsistent(Added(l, h, decay, value));
  }

  /** The counts fall short of the total by a millionth of it at most. */
  ghost predicate NearlyFull(h: Hist) {
    0.0 < h.total && h.total - Sum(h.counts) <= Mul(TOLERANCE, h.total)
  }

  lemma DifferenceDivided(x: real, y: real, t: real, k: real)
    requires x - y <= Mul(TOLERANCE, t) && 1.0 <= k
    ensures Div(x, k) - Div(y, k) <= Mul(TOLERANCE, Div(t, k))
  {
    var f := 1.0 / k;
    DivIsMul(x, k);
    DivIsMul(y, k);
    DivIsMul(t, k);
    Subtract(x, y, f);
    ScaleOrder(x - y, Mul(TOLERANCE, t), f);
    Associate(TOLERANCE, t, f);
  }

  lemma RenormalizedNearlyFull(h: Hist)
    requires NearlyFull(h) && 1.0 <= h.scale
    ensures NearlyFull(Renormalized(h))
  {
    SumOver(h.counts, h.scale);
    Positive(h.total, h.scale);
    DifferenceDivided(h.total, Sum(h.counts), h.total, h.scale);
  }

  /** Whatever was restored, one more observation brings the counts near the total. */
  lemma AddNearlyFull(l: Layout, h: Hist, decay: real, value: real)
    requires Acceptable(l, h) && 0.0 < decay <= 1.0 && 0.0 <= value
    ensures NearlyFull(Add(l, h, decay, value))
  {
    ScaleGrows(h.scale, decay);
    SumUpdate(h.counts, l.Bin(Clamped(l, value)), h.scale);
    NearShifted(Sum(h.counts), h.total, h.scale);
    RenormalizedNearlyFull(Added(l, h, decay, value));
  }

  /** Every share but the very last is within what the counts hold. */
  lemma ShareHeld(h: Hist, q: real)
    requires NearlyFull(h) && q < 1.0 - TOLERANCE
    ensures Mul(q, h.total) < Sum(h.counts)
  {
    StrictOrder(q, 1.0 - TOLERANCE, h.total);
    Subtract(1.0, TOLERANCE, h.total);
  }

  lemma AddCensoredAcceptable(l: Layout, h: Hist, decay: real)
    requires Acceptable(l, h) && 0.0 < decay <= 1.0
    ensures Acceptable(l, AddCensored(h, decay))
  {
    ScaleGrows(h.scale, decay);
    RenormalizedConsistent(h.(censored := h.censored + h.scale, scale := Raised(h.scale, decay)));
  }

  lemma ShrinkAcceptable(l: Layout, h: Hist, factor: real)
    requires Acceptable(l, h) && 0.0 < factor <= 1.0
    ensures Acceptable(l, Shrink(h, factor))
  {
    SumTimes(h.counts, factor);
    NearScaled(Sum(h.counts), h.total, factor);
    Positive(h.total, factor);
    Positive(h.sum, factor);
    Positive(h.censored, factor);
    forall i | 0 <= i < |h.counts|
      ensures 0.0 <= Times(h.counts, factor)[i]
    {
      Positive(h.counts[i], factor);
    }
  }
}
