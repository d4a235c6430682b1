/** The decaying histogram: lazily scaled counts, interpolated quantiles, and the naive per-step
    decay they stand for. Bins are given by their edges; doubles are reals. */
module Histogram {
  import opened Wire

  /** The scale at which counts are divided back down: 1e100. */
  const RENORMALIZE_AT: real := 10000000000000000000000000000000000000000000000000000000000000000000000000000000000000000000000000000.0

  /** Bin i covers edges[i] up to edges[i + 1]; the first starts at 0 and the last ends at the clamp. */
  datatype Layout = Layout(edges: seq<real>)
  {
    ghost predicate Valid() {
      && 8 <= |edges| - 1 <= 1024
      && edges[0] == 0.0
      && forall i :: 0 < i < |edges| ==> edges[i - 1] < edges[i]
    }

    function Bins(): int {
      |edges| - 1
    }

    function MaxMs(): real
      requires edges != []
    {
      edges[|edges| - 1]
    }

    /** The bin a value falls in; values beyond the last edge fall in the last bin. */
    function Bin(value: real): (b: nat)
      requires 2 <= |edges|
      ensures b < Bins()
    {
      BinFrom(value, 0)
    }

    function BinFrom(value: real, i: nat): (b: nat)
      requires i < Bins()
      ensures b < Bins()
      decreases Bins() - i
    {
      if i == Bins() - 1 || value < edges[i + 1] then i else BinFrom(value, i + 1)
    }
  }

  /** The bin is the one whose edges enclose the value. */
  lemma {:induction false} BinEncloses(l: Layout, value: real, i: nat)
    requires l.Valid() && i < l.Bins() && l.edges[i] <= value <= l.MaxMs()
    ensures var b := l.BinFrom(value, i);
            l.edges[b] <= value && (value < l.edges[b + 1] || (b == l.Bins() - 1 && value == l.MaxMs()))
    decreases l.Bins() - i
  {
    if !(i == l.Bins() - 1 || value < l.edges[i + 1]) {
      BinEncloses(l, value, i + 1);
    }
  }

  datatype Hist = Hist(counts: seq<real>, scale: real, total: real, sum: real, censored: real, observations: nat)

  function Fresh(l: Layout): Hist
    requires l.Valid()
  {
    Hist(seq(l.Bins(), _ => 0.0), 1.0, 0.0, 0.0, 0.0, 0)
  }

  function Mul(x: real, k: real): real {
    x * k
  }

  function Div(x: real, k: real): real
    requires k != 0.0
  {
    x / k
  }

  function Times(s: seq<real>, k: real): (r: seq<real>)
    ensures |r| == |s|
    ensures forall i :: 0 <= i < |s| ==> r[i] == Mul(s[i], k)
  {
    seq(|s|, i requires 0 <= i < |s| => Mul(s[i], k))
  }

  function Over(s: seq<real>, k: real): (r: seq<real>)
    requires k != 0.0
    ensures |r| == |s|
    ensures forall i :: 0 <= i < |s| ==> r[i] == Div(s[i], k)
  {
    seq(|s|, i requires 0 <= i < |s| => Div(s[i], k))
  }

  /** The scale after one more observation: divided by the decay. */
  function Raised(scale: real, decay: real): real
    requires decay != 0.0
  {
    scale * (1.0 / decay)
  }

  function Sum(s: seq<real>): real {
    if s == [] then 0.0 else Sum(s[..|s| - 1]) + s[|s| - 1]
  }

  predicate NonNegative(counts: seq<real>) {
    forall i :: 0 <= i < |counts| ==> 0.0 <= counts[i]
  }

  ghost predicate Valid(l: Layout, h: Hist) {
    && l.Valid()
    && |h.counts| == l.Bins()
    && NonNegative(h.counts)
    && h.total == Sum(h.counts)
    && 1.0 <= h.scale <= RENORMALIZE_AT
    && 0.0 <= h.sum && 0.0 <= h.censored
  }

  // ----- operations -----

  function Renormalized(h: Hist): Hist
    requires h.scale != 0.0
  {
    if h.scale <= RENORMALIZE_AT then h
    else h.(counts := Over(h.counts, h.scale), total := Div(h.total, h.scale),
            sum := Div(h.sum, h.scale), censored := Div(h.censored, h.scale), scale := 1.0)
  }

  function Clamped(l: Layout, value: real): real
    requires l.Valid()
  {
    if value > l.MaxMs() then l.MaxMs() else value
  }

  /** Record a value at the current scale, then raise the scale by 1 / decay. */
  function Added(l: Layout, h: Hist, decay: real, value: real): Hist
    requires l.Valid() && |h.counts| == l.Bins() && 0.0 < decay
  {
    var v := Clamped(l, value);
    var b := l.Bin(v);
    h.(counts := h.counts[b := h.counts[b] + h.scale], total := h.total + h.scale, sum := h.sum + Mul(h.scale, v),
       observations := Next64(h.observations), scale := Raised(h.scale, decay))
  }

  function Add(l: Layout, h: Hist, decay: real, value: real): Hist
    requires l.Valid() && |h.counts| == l.Bins() && 1.0 <= h.scale && 0.0 < decay <= 1.0
  {
    ScaleGrows(h.scale, decay);
    Renormalized(Added(l, h, decay, value))
  }

  function AddCensored(h: Hist, decay: real): Hist
    requires 1.0 <= h.scale && 0.0 < decay <= 1.0
  {
    ScaleGrows(h.scale, decay);
    Renormalized(h.(censored := h.censored + h.scale, scale := Raised(h.scale, decay)))
  }

  function Shrink(h: Hist, factor: real): Hist {
    h.(counts := Times(h.counts, factor), total := Mul(h.total, factor), sum := Mul(h.sum, factor),
       censored := Mul(h.censored, factor))
  }

  function Mean(h: Hist): real {
    if h.total > 0.0 then h.sum / h.total else 0.0
  }

  function CensoredFraction(h: Hist): real {
    if h.total + h.censored > 0.0 then h.censored / (h.total + h.censored) else 0.0
  }

  function Weight(h: Hist): real
    requires h.scale != 0.0
  {
    h.total / h.scale
  }

  // ----- real arithmetic -----

  lemma ScaleGrows(s: real, d: real)
    requires 1.0 <= s && 0.0 < d <= 1.0
    ensures s <= Raised(s, d)
  {
    var g := 1.0 / d;
    assert g * d == 1.0 && g > 0.0;
    NonNegativeProduct(g, 1.0 - d);
    assert g - 1.0 == g * (1.0 - d);
    NonNegativeProduct(s, g - 1.0);
    assert s * g == s * (g - 1.0) + s;
  }

  lemma NonNegativeProduct(x: real, y: real)
    requires 0.0 <= x && 0.0 <= y
    ensures 0.0 <= x * y
  {
  }

  lemma DivideRaised(x: real, s: real, d: real)
    requires 1.0 <= s && 0.0 < d <= 1.0
    ensures Raised(s, d) != 0.0
    ensures Div(x, Raised(s, d)) == Mul(Div(x, s), d)
  {
    ScaleGrows(s, d);
    var g := 1.0 / d;
    assert g * d == 1.0;
    var q := x / s;
    assert q * s == x;
    assert (q * d) * (s * g) == (q * s) * (d * g);
    Quotient(x, s * g, q * d);
  }

  lemma Quotient(x: real, y: real, q: real)
    requires y != 0.0 && q * y == x
    ensures x / y == q
  {
  }

  lemma SplitQuotient(x: real, y: real, s: real)
    requires s != 0.0
    ensures Div(x + y, s) == Div(x, s) + Div(y, s)
  {
  }

  lemma ScaleQuotient(x: real, s: real, f: real)
    requires s != 0.0
    ensures Div(Mul(x, f), s) == Mul(Div(x, s), f)
  {
    var q := x / s;
    assert q * s == x;
    var m := Mul(x, f);
    Quotient(m, s, q * f);
  }

  lemma UndoMul(s: real, v: real)
    requires s != 0.0
    ensures Div(Mul(s, v), s) == v
    ensures Div(s, s) == 1.0
  {
    var m := Mul(s, v);
    Quotient(m, s, v);
    Quotient(s, s, 1.0);
  }

  lemma Distribute(x: real, y: real, k: real)
    ensures Mul(x + y, k) == Mul(x, k) + Mul(y, k)
  {
    var z := x + y;
    assert z * k == x * k + y * k;
    assert Mul(z, k) == z * k;
  }

  // ----- sums -----

  lemma {:induction false} SumUpdate(s: seq<real>, i: nat, x: real)
    requires i < |s|
    ensures Sum(s[i := s[i] + x]) == Sum(s) + x
  {
    var n := |s| - 1;
    if i == n {
      assert s[i := s[i] + x][..n] == s[..n];
    } else {
      SumUpdate(s[..n], i, x);
      assert s[i := s[i] + x][..n] == s[..n][i := s[i] + x];
    }
  }

  lemma {:induction false} SumTimes(s: seq<real>, k: real)
    ensures Sum(Times(s, k)) == Mul(Sum(s), k)
  {
    if s != [] {
      var n := |s| - 1;
      SumTimes(s[..n], k);
      assert Times(s, k)[..n] == Times(s[..n], k);
      Distribute(Sum(s[..n]), s[n], k);
    }
  }

  lemma {:induction false} SumOver(s: seq<real>, k: real)
    requires k != 0.0
    ensures Sum(Over(s, k)) == Div(Sum(s), k)
  {
    if s != [] {
      var n := |s| - 1;
      SumOver(s[..n], k);
      assert Over(s, k)[..n] == Over(s[..n], k);
      SplitQuotient(Sum(s[..n]), s[n], k);
    }
  }

  lemma {:induction false} SumNonNegative(s: seq<real>)
    requires NonNegative(s)
    ensures 0.0 <= Sum(s)
  {
    if s != [] {
      SumNonNegative(s[..|s| - 1]);
    }
  }

  lemma {:induction false} SumZeros(n: nat)
    ensures Sum(seq(n, _ => 0.0)) == 0.0
  {
    if n > 0 {
      SumZeros(n - 1);
      assert seq(n, _ => 0.0)[..n - 1] == seq(n - 1, _ => 0.0);
    }
  }

  // ----- the operations keep the histogram valid -----

  lemma FreshValid(l: Layout)
    requires l.Valid()
    ensures Valid(l, Fresh(l))
  {
    SumZeros(l.Bins());
  }

  lemma Positive(x: real, k: real)
    requires 0.0 <= x && 0.0 < k
    ensures 0.0 <= Mul(x, k) && 0.0 <= Div(x, k)
    ensures 0.0 < x ==> 0.0 < Div(x, k)
  {
    var q := x / k;
    assert q * k == x;
    assert q < 0.0 ==> q * k < 0.0;
    assert q == 0.0 ==> q * k == 0.0;
  }

  lemma RenormalizedValid(l: Layout, h: Hist)
    requires l.Valid() && |h.counts| == l.Bins() && h.total == Sum(h.counts)
    requires NonNegative(h.counts)
    requires 1.0 <= h.scale && 0.0 <= h.sum && 0.0 <= h.censored
    ensures Valid(l, Renormalized(h))
  {
    SumOver(h.counts, h.scale);
    Positive(h.sum, h.scale);
    Positive(h.censored, h.scale);
    forall i | 0 <= i < |h.counts|
      ensures 0.0 <= Over(h.counts, h.scale)[i]
    {
      Positive(h.counts[i], h.scale);
    }
  }

  lemma AddValid(l: Layout, h: Hist, decay: real, value: real)
    requires Valid(l, h) && 0.0 < decay <= 1.0 && 0.0 <= value
    ensures Valid(l, Add(l, h, decay, value))
    ensures 0.0 < Add(l, h, decay, value).total
  {
    ScaleGrows(h.scale, decay);
    EdgesPositive(l, l.Bins());
    var v := Clamped(l, value);
    SumUpdate(h.counts, l.Bin(v), h.scale);
    Positive(v, h.scale);
    var a := Added(l, h, decay, value);
    RenormalizedValid(l, a);
    SumNonNegative(h.counts);
    Positive(a.total, a.scale);
  }

  lemma {:induction false} EdgesPositive(l: Layout, i: nat)
    requires l.Valid() && 1 <= i < |l.edges|
    ensures 0.0 < l.edges[i]
  {
    if i > 1 {
      EdgesPositive(l, i - 1);
    }
  }

  lemma AddCensoredValid(l: Layout, h: Hist, decay: real)
    requires Valid(l, h) && 0.0 < decay <= 1.0
    ensures Valid(l, AddCensored(h, decay))
  {
    ScaleGrows(h.scale, decay);
    RenormalizedValid(l, h.(censored := h.censored + h.scale, scale := Raised(h.scale, decay)));
  }

  lemma ShrinkValid(l: Layout, h: Hist, factor: real)
    requires Valid(l, h) && 0.0 < factor
    ensures Valid(l, Shrink(h, factor))
  {
    SumTimes(h.counts, factor);
    Positive(h.sum, factor);
    Positive(h.censored, factor);
    forall i | 0 <= i < |h.counts|
      ensures 0.0 <= Times(h.counts, factor)[i]
    {
      Positive(h.counts[i], factor);
    }
  }

  // ----- naive decay -----

  /** Plain decayed weights: every observation adds 1 and then everything is multiplied by decay. */
  datatype Naive = Naive(counts: seq<real>, total: real, sum: real, censored: real)

  function NaiveDecay(n: Naive, d: real): Naive {
    Naive(Times(n.counts, d), Mul(n.total, d), Mul(n.sum, d), Mul(n.censored, d))
  }

  function NaiveAdd(l: Layout, n: Naive, d: real, value: real): Naive
    requires l.Valid() && |n.counts| == l.Bins()
  {
    var v := Clamped(l, value);
    var b := l.Bin(v);
    NaiveDecay(n.(counts := n.counts[b := n.counts[b] + 1.0], total := n.total + 1.0, sum := n.sum + v), d)
  }

  function NaiveCensored(n: Naive, d: real): Naive {
    NaiveDecay(n.(censored := n.censored + 1.0), d)
  }

  /** What a scaled histogram stands for. */
  function View(h: Hist): Naive
    requires h.scale != 0.0
  {
    Naive(Over(h.counts, h.scale), Div(h.total, h.scale), Div(h.sum, h.scale), Div(h.censored, h.scale))
  }

  lemma RenormalizedView(h: Hist)
    requires 1.0 <= h.scale
    ensures View(Renormalized(h)) == View(h)
  {
    assert Over(Renormalized(h).counts, Renormalized(h).scale) == Over(h.counts, h.scale);
  }

  lemma DecayView(h: Hist, d: real)
    requires 1.0 <= h.scale && 0.0 < d <= 1.0
    ensures Raised(h.scale, d) != 0.0
    ensures View(h.(scale := Raised(h.scale, d))) == NaiveDecay(View(h), d)
  {
    DivideRaised(h.total, h.scale, d);
    DivideRaised(h.sum, h.scale, d);
    DivideRaised(h.censored, h.scale, d);
    var s := Raised(h.scale, d);
    forall i | 0 <= i < |h.counts|
      ensures Over(h.counts, s)[i] == Times(Over(h.counts, h.scale), d)[i]
    {
      DivideRaised(h.counts[i], h.scale, d);
    }
    assert Over(h.counts, s) == Times(Over(h.counts, h.scale), d);
  }

  lemma AddView(l: Layout, h: Hist, d: real, value: real)
    requires l.Valid() && |h.counts| == l.Bins() && 1.0 <= h.scale && 0.0 < d <= 1.0
    ensures 1.0 <= Add(l, h, d, value).scale
    ensures View(Add(l, h, d, value)) == NaiveAdd(l, View(h), d, value)
  {
    ScaleGrows(h.scale, d);
    var v := Clamped(l, value);
    var b := l.Bin(v);
    var s := h.scale;
    var raised := h.(counts := h.counts[b := h.counts[b] + s], total := h.total + s, sum := h.sum + Mul(s, v),
                     observations := Next64(h.observations));
    RenormalizedView(Added(l, h, d, value));
    DecayView(raised, d);
    SplitQuotient(h.total, s, s);
    SplitQuotient(h.sum, Mul(s, v), s);
    UndoMul(s, v);
    SplitQuotient(h.counts[b], s, s);
    var n := View(h);
    assert View(raised).counts == n.counts[b := n.counts[b] + 1.0];
  }

  lemma CensoredView(h: Hist, d: real)
    requires 1.0 <= h.scale && 0.0 < d <= 1.0
    ensures AddCensored(h, d).scale != 0.0
    ensures View(AddCensored(h, d)) == NaiveCensored(View(h), d)
  {
    ScaleGrows(h.scale, d);
    var raised := h.(censored := h.censored + h.scale);
    RenormalizedView(raised.(scale := Raised(h.scale, d)));
    DecayView(raised, d);
    SplitQuotient(h.censored, h.scale, h.scale);
    UndoMul(h.scale, 1.0);
  }

  lemma ShrinkView(h: Hist, f: real)
    requires 1.0 <= h.scale
    ensures View(Shrink(h, f)) == NaiveDecay(View(h), f)
  {
    ScaleQuotient(h.total, h.scale, f);
    ScaleQuotient(h.sum, h.scale, f);
    ScaleQuotient(h.censored, h.scale, f);
    forall i | 0 <= i < |h.counts|
      ensures Over(Times(h.counts, f), h.scale)[i] == Times(Over(h.counts, h.scale), f)[i]
    {
      ScaleQuotient(h.counts[i], h.scale, f);
    }
    assert Over(Times(h.counts, f), h.scale) == Times(Over(h.counts, h.scale), f);
  }

  // ----- every history -----

  datatype Op = Observe(value: real) | Censor | Idle(factor: real)

  ghost predicate Allowed(op: Op) {
    match op
    case Observe(v) => 0.0 <= v
    case Censor => true
    case Idle(f) => 0.0 < f <= 1.0
  }

  function Applied(l: Layout, h: Hist, d: real, op: Op): Hist
    requires Valid(l, h) && 0.0 < d <= 1.0
  {
    match op
    case Observe(v) => Add(l, h, d, v)
    case Censor => AddCensored(h, d)
    case Idle(f) => Shrink(h, f)
  }

  function NaivelyApplied(l: Layout, n: Naive, d: real, op: Op): Naive
    requires l.Valid() && |n.counts| == l.Bins()
  {
    match op
    case Observe(v) => NaiveAdd(l, n, d, v)
    case Censor => NaiveCensored(n, d)
    case Idle(f) => NaiveDecay(n, f)
  }

  ghost function After(l: Layout, d: real, ops: seq<Op>): (h: Hist)
    requires l.Valid() && 0.0 < d <= 1.0 && forall i :: 0 <= i < |ops| ==> Allowed(ops[i])
    ensures Valid(l, h)
  {
    if ops == [] then FreshValid(l); Fresh(l)
    else
      var h := After(l, d, ops[..|ops| - 1]);
      AppliedValid(l, h, d, ops[|ops| - 1]);
      Applied(l, h, d, ops[|ops| - 1])
  }

  lemma AppliedValid(l: Layout, h: Hist, d: real, op: Op)
    requires Valid(l, h) && 0.0 < d <= 1.0 && Allowed(op)
    ensures Valid(l, Applied(l, h, d, op))
  {
    match op
    case Observe(v) => AddValid(l, h, d, v);
    case Censor => AddCensoredValid(l, h, d);
    case Idle(f) => ShrinkValid(l, h, f);
  }

  ghost function NaivelyAfter(l: Layout, d: real, ops: seq<Op>): (n: Naive)
    requires l.Valid()
    ensures |n.counts| == l.Bins()
  {
    if ops == [] then Naive(seq(l.Bins(), _ => 0.0), 0.0, 0.0, 0.0)
    else NaivelyApplied(l, NaivelyAfter(l, d, ops[..|ops| - 1]), d, ops[|ops| - 1])
  }

  /** The scaled histogram refines naive decay: after every sequence of observations, censored
      attempts and idle gaps, its counts, total, sum and censored weight over its scale are the
      naively decayed ones, and its total is the sum of its counts. */
  lemma {:induction false} RefinesNaiveDecay(l: Layout, d: real, ops: seq<Op>)
    requires l.Valid() && 0.0 < d <= 1.0 && forall i :: 0 <= i < |ops| ==> Allowed(ops[i])
    ensures View(After(l, d, ops)) == NaivelyAfter(l, d, ops)
    ensures After(l, d, ops).total == Sum(After(l, d, ops).counts)
  {
    if ops == [] {
      assert View(Fresh(l)).counts == seq(l.Bins(), _ => 0.0);
    } else {
      var rest := ops[..|ops| - 1];
      RefinesNaiveDecay(l, d, rest);
      var h := After(l, d, rest);
      match ops[|ops| - 1]
      case Observe(v) => AddView(l, h, d, v);
      case Censor => CensoredView(h, d);
      case Idle(f) => ShrinkView(h, f);
    }
  }
}
