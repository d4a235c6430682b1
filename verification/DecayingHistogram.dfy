/** The histogram as the program keeps it: counts updated in place in an array. */
module DecayingHistogram {
  import opened Wire
  import opened Histogram
  import opened HistogramTolerance
  import Quantile

  class Decaying {
    const layout: Layout
    const decay: real
    const counts: array<real>
    var scale: real
    var total: real
    var sum: real
    var censored: real
    var observations: nat

    ghost function State(): Hist
      reads this, counts
    {
      Hist(counts[..], scale, total, sum, censored, observations)
    }

    ghost predicate Sound()
      reads this, counts
    {
      Acceptable(layout, State()) && 0.0 < decay <= 1.0
    }

    constructor (l: Layout, d: real)
      requires l.Valid() && 0.0 < d <= 1.0
      ensures fresh(counts) && Sound() && layout == l && decay == d && State() == Fresh(l)
    {
      layout, decay := l, d;
      counts := new real[l.Bins()](_ => 0.0);
      scale, total, sum, censored, observations := 1.0, 0.0, 0.0, 0.0, 0;
      new;
      FreshAcceptable(l);
      assert counts[..] == Fresh(l).counts;
    }

    /** Multiply every count in place. */
    method ShrinkCounts(factor: real)
      modifies counts
      ensures counts[..] == Times(old(counts[..]), factor)
    {
      for i := 0 to counts.Length
        invariant forall k :: 0 <= k < i ==> counts[k] == Mul(old(counts[k]), factor)
        invariant forall k :: i <= k < counts.Length ==> counts[k] == old(counts[k])
      {
        counts[i] := Mul(counts[i], factor);
      }
    }

    /** Divide every count in place. */
    method DivideCounts(divisor: real)
      requires divisor != 0.0
      modifies counts
      ensures counts[..] == Over(old(counts[..]), divisor)
    {
      for i := 0 to counts.Length
        invariant forall k :: 0 <= k < i ==> counts[k] == Div(old(counts[k]), divisor)
        invariant forall k :: i <= k < counts.Length ==> counts[k] == old(counts[k])
      {
        counts[i] := Div(counts[i], divisor);
      }
    }

    method RenormalizeIfNeeded()
      requires scale != 0.0
      modifies this, counts
      ensures State() == Renormalized(old(State()))
    {
      if scale <= RENORMALIZE_AT {
        return;
      }
      DivideCounts(scale);
      total := Div(total, scale);
      sum := Div(sum, scale);
      censored := Div(censored, scale);
      scale := 1.0;
    }

    /** Learn a value; the answer says whether it was clamped. */
    method Learn(value: real) returns (clamped: bool)
      requires Sound() && 0.0 <= value
      modifies this, counts
      ensures Sound() && State() == Add(layout, old(State()), decay, value)
      ensures clamped <==> value > layout.MaxMs()
    {
      AddAcceptable(layout, State(), decay, value);
      ScaleGrows(scale, decay);
      clamped := value > layout.MaxMs();
      var v := if clamped then layout.MaxMs() else value;
      var b := layout.Bin(v);
      counts[b] := counts[b] + scale;
      total := total + scale;
      sum := sum + Mul(scale, v);
      observations := Next64(observations);
      scale := Raised(scale, decay);
      assert State() == Added(layout, old(State()), decay, value);
      RenormalizeIfNeeded();
    }

    method LearnCensored()
      requires Sound()
      modifies this, counts
      ensures Sound() && State() == AddCensored(old(State()), decay)
    {
      AddCensoredAcceptable(layout, State(), decay);
      ScaleGrows(scale, decay);
      censored := censored + scale;
      scale := Raised(scale, decay);
      assert State() == old(State()).(censored := old(censored) + old(scale), scale := Raised(old(scale), decay));
      RenormalizeIfNeeded();
    }

    method Shrink(factor: real)
      requires Sound() && 0.0 < factor <= 1.0
      modifies this, counts
      ensures Sound() && State() == Histogram.Shrink(old(State()), factor)
    {
      ShrinkAcceptable(layout, State(), factor);
      ShrinkCounts(factor);
      total := Mul(total, factor);
      sum := Mul(sum, factor);
      censored := Mul(censored, factor);
    }

    /** The walk over the bins. */
    method QuantileAt(q: real) returns (r: real)
      requires Sound()
      ensures r == Quantile.Of(layout, State(), q)
    {
      if total <= 0.0 {
        return 0.0;
      }
      var target := Mul(Quantile.Clamp(q), total);
      var seen := 0.0;
      for i := 0 to counts.Length
        invariant Quantile.Walk(layout, counts[..], i, seen, target) == Quantile.Of(layout, State(), q)
      {
        if counts[i] > 0.0 {
          if seen + counts[i] >= target {
            var fraction := Div(target - seen, counts[i]);
            return layout.edges[i] + Mul(fraction, layout.edges[i + 1] - layout.edges[i]);
          }
          seen := seen + counts[i];
        }
      }
      return layout.MaxMs();
    }
  }
}
