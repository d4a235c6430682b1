/** Interpolated quantiles of a histogram: positive and strictly increasing, whatever the scale. */
module Quantile {
  import opened Histogram

  /** The point a share `x` of a bin's weight `c` into the bin. */
  function Point(lo: real, hi: real, x: real, c: real): real
    requires c != 0.0
  {
    lo + Mul(Div(x, c), hi - lo)
  }

  /** Walk the bins until the weight seen reaches the target. */
  function Walk(l: Layout, counts: seq<real>, i: nat, seen: real, target: real): real
    requires l.Valid() && |counts| == l.Bins() && i <= l.Bins()
    decreases l.Bins() - i
  {
    if i == l.Bins() then l.MaxMs()
    else if counts[i] <= 0.0 then Walk(l, counts, i + 1, seen, target)
    else if seen + counts[i] >= target then Point(l.edges[i], l.edges[i + 1], target - seen, counts[i])
    else Walk(l, counts, i + 1, seen + counts[i], target)
  }

  function Clamp(q: real): real {
    if q < 0.0 then 0.0 else if q > 1.0 then 1.0 else q
  }

  function At(l: Layout, counts: seq<real>, total: real, q: real): real
    requires l.Valid() && |counts| == l.Bins()
  {
    if total <= 0.0 then 0.0 else Walk(l, counts, 0, 0.0, Mul(Clamp(q), total))
  }

  function Of(l: Layout, h: Hist, q: real): real
    requires l.Valid() && |h.counts| == l.Bins()
  {
    At(l, h.counts, h.total, q)
  }

  // ----- order -----

  lemma DivOrder(x: real, y: real, c: real)
    requires x < y && 0.0 < c
    ensures Div(x, c) < Div(y, c)
  {
    var p, q := x / c, y / c;
    assert p * c == x && q * c == y;
    assert (q - p) * c == y - x;
    assert q - p <= 0.0 ==> (q - p) * c <= 0.0;
  }

  lemma MulOrder(x: real, y: real, c: real)
    requires x < y && 0.0 < c
    ensures Mul(x, c) < Mul(y, c)
  {
    assert (y - x) * c > 0.0;
  }

  lemma PointOrder(lo: real, hi: real, x: real, y: real, c: real)
    requires lo < hi && 0.0 < c && x < y
    ensures Point(lo, hi, x, c) < Point(lo, hi, y, c)
  {
    DivOrder(x, y, c);
    MulOrder(Div(x, c), Div(y, c), hi - lo);
  }

  lemma PointEnds(lo: real, hi: real, c: real)
    requires 0.0 < c
    ensures Point(lo, hi, 0.0, c) == lo
    ensures Point(lo, hi, c, c) == hi
  {
    Quotient(0.0, c, 0.0);
    Quotient(c, c, 1.0);
    assert Div(c, c) == 1.0 && Mul(1.0, hi - lo) == hi - lo;
    assert Div(0.0, c) == 0.0 && Mul(0.0, hi - lo) == 0.0;
  }

  lemma PointInside(lo: real, hi: real, x: real, c: real)
    requires lo < hi && 0.0 < x <= c
    ensures lo < Point(lo, hi, x, c) <= hi
  {
    PointEnds(lo, hi, c);
    PointOrder(lo, hi, 0.0, x, c);
    if x < c {
      PointOrder(lo, hi, x, c, c);
    }
  }

  lemma {:induction false} EdgesOrdered(l: Layout, i: nat, j: nat)
    requires l.Valid() && i <= j < |l.edges|
    ensures l.edges[i] <= l.edges[j]
  {
    if i < j {
      EdgesOrdered(l, i, j - 1);
    }
  }

  /** What is left of the sum from bin `i` on. */
  function Rest(s: seq<real>, i: nat): real
    requires i <= |s|
    decreases |s| - i
  {
    if i == |s| then 0.0 else s[i] + Rest(s, i + 1)
  }

  lemma {:induction false} RestIsSum(s: seq<real>, i: nat)
    requires i <= |s|
    ensures Sum(s) == Sum(s[..i]) + Rest(s, i)
    decreases |s| - i
  {
    if i == |s| {
      assert s[..i] == s;
    } else {
      RestIsSum(s, i + 1);
      assert s[..i + 1][..i] == s[..i];
    }
  }

  /** A target still ahead is reached past the start of the bin the walk is at. */
  lemma {:induction false} WalkAhead(l: Layout, counts: seq<real>, i: nat, seen: real, t: real)
    requires l.Valid() && |counts| == l.Bins() && NonNegative(counts) && i <= l.Bins()
    requires seen < t <= seen + Rest(counts, i)
    ensures l.edges[i] < Walk(l, counts, i, seen, t) <= l.MaxMs()
    decreases l.Bins() - i
  {
    if counts[i] <= 0.0 {
      WalkAhead(l, counts, i + 1, seen, t);
    } else if seen + counts[i] >= t {
      PointInside(l.edges[i], l.edges[i + 1], t - seen, counts[i]);
      EdgesOrdered(l, i + 1, l.Bins());
    } else {
      WalkAhead(l, counts, i + 1, seen + counts[i], t);
    }
  }

  lemma {:induction false} WalkOrder(l: Layout, counts: seq<real>, i: nat, seen: real, t: real, u: real)
    requires l.Valid() && |counts| == l.Bins() && NonNegative(counts) && i <= l.Bins()
    requires seen < t < u <= seen + Rest(counts, i)
    ensures Walk(l, counts, i, seen, t) < Walk(l, counts, i, seen, u)
    decreases l.Bins() - i
  {
    if counts[i] <= 0.0 {
      WalkOrder(l, counts, i + 1, seen, t, u);
    } else if seen + counts[i] >= u {
      PointOrder(l.edges[i], l.edges[i + 1], t - seen, u - seen, counts[i]);
    } else if seen + counts[i] >= t {
      PointInside(l.edges[i], l.edges[i + 1], t - seen, counts[i]);
      WalkAhead(l, counts, i + 1, seen + counts[i], u);
    } else {
      WalkOrder(l, counts, i + 1, seen + counts[i], t, u);
    }
  }

  /** A target beyond the weight left is never reached: the walk ends at the clamp. */
  lemma {:induction false} WalkMisses(l: Layout, counts: seq<real>, i: nat, seen: real, t: real)
    requires l.Valid() && |counts| == l.Bins() && NonNegative(counts) && i <= l.Bins()
    requires seen + Rest(counts, i) < t
    ensures Walk(l, counts, i, seen, t) == l.MaxMs()
    decreases l.Bins() - i
  {
    if i < l.Bins() {
      RestNonNegative(counts, i + 1);
      WalkMisses(l, counts, i + 1, if counts[i] <= 0.0 then seen else seen + counts[i], t);
    }
  }

  lemma {:induction false} RestNonNegative(s: seq<real>, i: nat)
    requires NonNegative(s) && i <= |s|
    ensures 0.0 <= Rest(s, i)
    decreases |s| - i
  {
    if i < |s| {
      RestNonNegative(s, i + 1);
    }
  }

  lemma Target(q: real, total: real)
    requires 0.0 < q <= 1.0 && 0.0 < total
    ensures 0.0 < Mul(Clamp(q), total) <= total
  {
    MulOrder(0.0, q, total);
    assert Mul(0.0, total) == 0.0 && Mul(1.0, total) == total;
    if q < 1.0 {
      MulOrder(q, 1.0, total);
    }
  }

  /** A histogram with weight: its total may be off the sum of its counts, as in a restored one. */
  ghost predicate Weighs(l: Layout, h: Hist) {
    l.Valid() && |h.counts| == l.Bins() && NonNegative(h.counts) && 0.0 < h.total
  }

  /** Every quantile above zero is positive and at most the clamp. */
  lemma QuantilePositive(l: Layout, h: Hist, q: real)
    requires Weighs(l, h) && 0.0 < q <= 1.0
    ensures 0.0 < Of(l, h, q) <= l.MaxMs()
  {
    Target(q, h.total);
    RestIsSum(h.counts, 0);
    var t := Mul(Clamp(q), h.total);
    if t <= Sum(h.counts) {
      WalkAhead(l, h.counts, 0, 0.0, t);
    } else {
      WalkMisses(l, h.counts, 0, 0.0, t);
      EdgesPositive(l, l.Bins());
    }
  }

  /** Quantiles are strictly increasing as far as the counts reach. */
  lemma QuantileIncreasing(l: Layout, h: Hist, q: real, r: real)
    requires Weighs(l, h) && 0.0 < q < r <= 1.0 && Mul(q, h.total) < Sum(h.counts)
    ensures Of(l, h, q) < Of(l, h, r)
  {
    Target(q, h.total);
    Target(r, h.total);
    MulOrder(q, r, h.total);
    RestIsSum(h.counts, 0);
    var t, u := Mul(Clamp(q), h.total), Mul(Clamp(r), h.total);
    if u <= Sum(h.counts) {
      WalkOrder(l, h.counts, 0, 0.0, t, u);
    } else {
      WalkMisses(l, h.counts, 0, 0.0, u);
      WalkOrder(l, h.counts, 0, 0.0, t, Sum(h.counts));
      WalkAhead(l, h.counts, 0, 0.0, Sum(h.counts));
    }
  }

  // ----- what a quantile means -----

  /** How much of a bin's weight lies below x when it is spread evenly over the bin. */
  function Portion(lo: real, hi: real, x: real, c: real): real
    requires lo < hi
  {
    if x <= lo then 0.0 else if hi <= x then c else Mul(Div(x - lo, hi - lo), c)
  }

  /** The weight below x from bin i on. */
  function WeightBelow(l: Layout, counts: seq<real>, i: nat, x: real): real
    requires l.Valid() && |counts| == l.Bins() && i <= l.Bins()
    decreases l.Bins() - i
  {
    if i == l.Bins() then 0.0
    else Portion(l.edges[i], l.edges[i + 1], x, counts[i]) + WeightBelow(l, counts, i + 1, x)
  }

  lemma {:induction false} NothingBelow(l: Layout, counts: seq<real>, i: nat, x: real)
    requires l.Valid() && |counts| == l.Bins() && i <= l.Bins() && x <= l.edges[i]
    ensures WeightBelow(l, counts, i, x) == 0.0
    decreases l.Bins() - i
  {
    if i < l.Bins() {
      NothingBelow(l, counts, i + 1, x);
    }
  }

  lemma PortionOfPoint(lo: real, hi: real, x: real, c: real)
    requires lo < hi && 0.0 < x <= c
    ensures Portion(lo, hi, Point(lo, hi, x, c), c) == x
  {
    PointInside(lo, hi, x, c);
    PointEnds(lo, hi, c);
    if x < c {
      PointOrder(lo, hi, x, c, c);
      UndoDiv(Div(x, c), hi - lo);
      var r := x / c;
      assert r * c == x && Mul(Div(x, c), c) == r * c;
    }
  }

  lemma UndoDiv(x: real, k: real)
    requires k != 0.0
    ensures Div(Mul(x, k), k) == x
  {
    var m := Mul(x, k);
    Quotient(m, k, x);
  }

  lemma EmptyPortion(lo: real, hi: real, x: real)
    requires lo < hi
    ensures Portion(lo, hi, x, 0.0) == 0.0
  {
    if lo < x < hi {
      var r := Div(x - lo, hi - lo);
      assert Mul(r, 0.0) == 0.0;
    }
  }

  lemma {:induction false} WalkReaches(l: Layout, counts: seq<real>, i: nat, seen: real, t: real)
    requires l.Valid() && |counts| == l.Bins() && NonNegative(counts) && i <= l.Bins()
    requires seen < t <= seen + Rest(counts, i)
    ensures seen + WeightBelow(l, counts, i, Walk(l, counts, i, seen, t)) == t
    decreases l.Bins() - i
  {
    var x := Walk(l, counts, i, seen, t);
    if counts[i] <= 0.0 {
      WalkReaches(l, counts, i + 1, seen, t);
      EmptyPortion(l.edges[i], l.edges[i + 1], x);
    } else if seen + counts[i] >= t {
      PortionOfPoint(l.edges[i], l.edges[i + 1], t - seen, counts[i]);
      PointInside(l.edges[i], l.edges[i + 1], t - seen, counts[i]);
      NothingBelow(l, counts, i + 1, x);
    } else {
      WalkReaches(l, counts, i + 1, seen + counts[i], t);
      WalkAhead(l, counts, i + 1, seen + counts[i], t);
    }
  }

  lemma {:induction false} AllBelow(l: Layout, counts: seq<real>, i: nat)
    requires l.Valid() && |counts| == l.Bins() && i <= l.Bins()
    ensures WeightBelow(l, counts, i, l.MaxMs()) == Rest(counts, i)
    decreases l.Bins() - i
  {
    if i < l.Bins() {
      EdgesOrdered(l, i + 1, l.Bins());
      AllBelow(l, counts, i + 1);
    }
  }

  function Smaller(x: real, y: real): real {
    if x < y then x else y
  }

  /** A quantile is where its share of the total lies below, or all the weight there is when the
      counts of a restored histogram fall short of that share. */
  lemma {:induction false} QuantileSplitsWeight(l: Layout, h: Hist, q: real)
    requires Weighs(l, h) && 0.0 < q <= 1.0
    ensures WeightBelow(l, h.counts, 0, Of(l, h, q)) == Smaller(Mul(q, h.total), Sum(h.counts))
  {
    Target(q, h.total);
    RestIsSum(h.counts, 0);
    var t := Mul(Clamp(q), h.total);
    if t <= Sum(h.counts) {
      WalkReaches(l, h.counts, 0, 0.0, t);
    } else {
      WalkMisses(l, h.counts, 0, 0.0, t);
      AllBelow(l, h.counts, 0);
    }
  }

  // ----- scale -----

  lemma DivMono(x: real, y: real, s: real)
    requires 0.0 < s
    ensures Div(x, s) >= Div(y, s) <==> x >= y
    ensures Div(x, s) <= 0.0 <==> x <= 0.0
  {
    Quotient(0.0, s, 0.0);
    assert Div(0.0, s) == 0.0;
    if x < y {
      DivOrder(x, y, s);
    } else if y < x {
      DivOrder(y, x, s);
    }
    if x < 0.0 {
      DivOrder(x, 0.0, s);
    } else if 0.0 < x {
      DivOrder(0.0, x, s);
    }
  }

  lemma DivMinus(x: real, y: real, s: real)
    requires s != 0.0
    ensures Div(x - y, s) == Div(x, s) - Div(y, s)
  {
    SplitQuotient(x - y, y, s);
  }

  lemma RatioOver(x: real, c: real, s: real)
    requires 0.0 < c && 0.0 < s
    ensures Div(c, s) != 0.0
    ensures Div(Div(x, s), Div(c, s)) == Div(x, c)
  {
    Positive(c, s);
    var y, d, r := x / s, c / s, x / c;
    assert y * s == x && d * s == c && r * c == x;
    assert (r * d) * s == r * (d * s);
    Cancel(r * d, y, s);
    Quotient(y, d, r);
  }

  lemma Cancel(a: real, b: real, s: real)
    requires s != 0.0 && a * s == b * s
    ensures a == b
  {
    assert (a - b) * s == 0.0;
  }

  /** Dividing all weights by one scale moves no point of the walk. */
  lemma {:induction false} WalkOver(l: Layout, counts: seq<real>, i: nat, seen: real, t: real, s: real)
    requires l.Valid() && |counts| == l.Bins() && i <= l.Bins() && 0.0 < s
    ensures Walk(l, Over(counts, s), i, Div(seen, s), Div(t, s)) == Walk(l, counts, i, seen, t)
    decreases l.Bins() - i
  {
    if i < l.Bins() {
      var c := counts[i];
      DivMono(c, 0.0, s);
      if c <= 0.0 {
        WalkOver(l, counts, i + 1, seen, t, s);
      } else {
        SplitQuotient(seen, c, s);
        DivMono(seen + c, t, s);
        if seen + c >= t {
          DivMinus(t, seen, s);
          RatioOver(t - seen, c, s);
        } else {
          WalkOver(l, counts, i + 1, seen + c, t, s);
        }
      }
    }
  }

  lemma AtOver(l: Layout, counts: seq<real>, total: real, q: real, s: real)
    requires l.Valid() && |counts| == l.Bins() && 0.0 < s
    ensures At(l, Over(counts, s), Div(total, s), q) == At(l, counts, total, q)
  {
    DivMono(total, 0.0, s);
    if total > 0.0 {
      var t := Mul(Clamp(q), total);
      TargetOver(Clamp(q), total, s);
      Quotient(0.0, s, 0.0);
      assert Div(0.0, s) == 0.0;
      WalkOver(l, counts, 0, 0.0, t, s);
    }
  }

  lemma TargetOver(q: real, total: real, s: real)
    requires s != 0.0
    ensures Mul(q, Div(total, s)) == Div(Mul(q, total), s)
  {
    ScaleQuotient(total, s, q);
    assert Mul(total, q) == Mul(q, total) && Mul(Div(total, s), q) == Mul(q, Div(total, s));
  }

  /** A histogram's quantiles, mean and censored fraction are those of the naive decay it stands for. */
  lemma ViewReads(l: Layout, h: Hist, q: real)
    requires l.Valid() && |h.counts| == l.Bins() && 1.0 <= h.scale
    ensures var n := View(h);
            && At(l, n.counts, n.total, q) == Of(l, h, q)
            && Mean(h) == (if n.total > 0.0 then n.sum / n.total else 0.0)
            && CensoredFraction(h) ==
               (if n.total + n.censored > 0.0 then n.censored / (n.total + n.censored) else 0.0)
            && Weight(h) == n.total
  {
    AtOver(l, h.counts, h.total, q, h.scale);
    DivMono(h.total, 0.0, h.scale);
    if h.total > 0.0 {
      RatioOver(h.sum, h.total, h.scale);
      assert Mean(h) == Div(h.sum, h.total);
      assert Div(View(h).sum, View(h).total) == Div(h.sum, h.total);
    }
    SplitQuotient(h.total, h.censored, h.scale);
    DivMono(h.total + h.censored, 0.0, h.scale);
    if h.total + h.censored > 0.0 {
      RatioOver(h.censored, h.total + h.censored, h.scale);
      assert CensoredFraction(h) == Div(h.censored, h.total + h.censored);
      assert Div(View(h).censored, View(h).total + View(h).censored) == Div(h.censored, h.total + h.censored);
    }
  }

  /** Renormalization changes no quantile, mean, censored fraction or weight. */
  lemma RenormalizationInvisible(l: Layout, h: Hist, q: real)
    requires l.Valid() && |h.counts| == l.Bins() && 1.0 <= h.scale
    ensures var r := Renormalized(h);
            && Of(l, r, q) == Of(l, h, q)
            && Weight(r) == Weight(h)
            && Mean(r) == Mean(h)
            && CensoredFraction(r) == CensoredFraction(h)
  {
    if h.scale > RENORMALIZE_AT {
      var r := Renormalized(h);
      AtOver(l, h.counts, h.total, q, h.scale);
      DivMono(h.total, 0.0, h.scale);
      if h.total > 0.0 {
        RatioOver(h.sum, h.total, h.scale);
        assert Mean(r) == Div(r.sum, r.total) && Mean(h) == Div(h.sum, h.total);
      }
      SplitQuotient(h.total, h.censored, h.scale);
      DivMono(h.total + h.censored, 0.0, h.scale);
      if h.total + h.censored > 0.0 {
        RatioOver(h.censored, h.total + h.censored, h.scale);
        assert CensoredFraction(r) == Div(r.censored, r.total + r.censored);
        assert CensoredFraction(h) == Div(h.censored, h.total + h.censored);
      }
      assert Weight(r) == Div(Div(h.total, h.scale), 1.0) == Div(h.total, h.scale);
    }
  }
}
