/** The predictor's per-key table: one shard's map and recency list, with admission, recycling,
    staleness and the tier a key is predicted to. */
module KeyTable {
  import opened Options
  import opened Histogram
  import opened HistogramTolerance
  import opened Wire
  import Quantile
  import opened Boundaries

  const MAX_KEY_BYTES := 256
  const NANOS_PER_SECOND := 1_000_000_000

  datatype Key = Key(bytes: seq<Byte>)

  datatype Summary = Median | P75 | Average

  /** Times in nanoseconds; `halving` is the retention factor for an idle gap. */
  datatype Config = Config(layout: Layout, levels: nat, defaultPriority: nat, summary: Summary, minSamples: nat,
                           spreadQuantile: real, maxSpread: real, maxCensored: real, decay: real,
                           halfLife: int, halving: int -> real, staleAfter: int, idleEviction: int,
                           coldGrace: int, cap: nat, hysteresis: real)
  {
    ghost predicate Valid() {
      && layout.Valid() && 1 <= levels <= 255 && defaultPriority < levels && 1 <= minSamples
      && 0.5 < spreadQuantile <= 1.0 && 1.0 <= maxSpread && 0.0 <= maxCensored <= 1.0
      && 0.0 < decay <= 1.0 && 0 <= halfLife && 0 <= staleAfter && 0 <= idleEviction && 0 <= coldGrace
      && (forall gap :: 0.0 < halving(gap) <= 1.0)
      && 1 <= cap && 0.0 <= hysteresis < 1.0
    }
  }

  datatype Entry = Entry(hist: Hist, lastActivity: int, lastDecay: int, tier: int)

  /** `recency` lists the keys, most recently active first. */
  datatype Shard = Shard(keys: map<Key, Entry>, recency: seq<Key>, evictions: nat)

  datatype Status = Predicted | Unready | ColdKey | HighSpread | Censored | StaleKey | InvalidKey

  datatype Prediction = Prediction(estimate: Option<real>, bucket: int, status: Status, seen: nat)

  predicate UsableKey(k: Key) {
    0 < |k.bytes| <= MAX_KEY_BYTES
  }

  /** The time between two readings, in 64 bits. */
  function Gap(at: int, since: int): int {
    Wrap64(at - since)
  }

  predicate Stale(c: Config, e: Entry, at: int) {
    c.staleAfter > 0 && Gap(at, e.lastActivity) > c.staleAfter
  }

  // ----- the recency list -----

  function Without(r: seq<Key>, k: Key): seq<Key> {
    if r == [] then [] else if r[0] == k then r[1..] else [r[0]] + Without(r[1..], k)
  }

  function MovedToFront(r: seq<Key>, k: Key): seq<Key> {
    [k] + Without(r, k)
  }

  // ----- touching a key -----

  function NewEntry(c: Config, at: int): Entry
    requires c.Valid()
  {
    Entry(Fresh(c.layout), at, at, -1)
  }

  /** Bring a tracked key's history up to date: stale evidence is discarded, idle gaps decay. */
  function Updated(c: Config, e: Entry, at: int): Entry
    requires c.Valid()
  {
    if Stale(c, e, at) then e.(hist := Fresh(c.layout), tier := -1, lastDecay := at)
    else if c.halfLife > 0 && Gap(at, e.lastDecay) >= NANOS_PER_SECOND
    then e.(hist := Shrink(e.hist, c.halving(Gap(at, e.lastDecay))), lastDecay := at)
    else e
  }

  /** How long a key must have been idle before it can be recycled; zero for never. */
  function IdleLimit(c: Config, e: Entry): int {
    if e.hist.observations < c.minSamples then c.coldGrace else c.idleEviction
  }

  predicate Recyclable(c: Config, e: Entry, at: int) {
    IdleLimit(c, e) > 0 && Gap(at, e.lastActivity) >= IdleLimit(c, e)
  }

  function Evict(s: Shard): Shard
    requires s.recency != []
  {
    var n := |s.recency| - 1;
    Shard(s.keys - {s.recency[n]}, s.recency[..n], s.evictions + 1)
  }

  /** A new key goes to the front of the recency list. */
  function Insert(s: Shard, k: Key, e: Entry): Shard {
    s.(keys := s.keys[k := e], recency := [k] + s.recency)
  }

  /** Find or admit a key; none when the shard is full of keys that cannot be recycled. */
  function Touch(c: Config, s: Shard, k: Key, at: int): Option<Shard>
    requires c.Valid() && Listed(s)
  {
    if k in s.keys then Some(s.(keys := s.keys[k := Updated(c, s.keys[k], at)]))
    else if |s.keys| < c.cap then Some(Insert(s, k, NewEntry(c, at)))
    else
      ListedSize(s.keys.Keys, s.recency);
      var oldest := s.recency[|s.recency| - 1];
      OldestListed(s);
      if Recyclable(c, s.keys[oldest], at) then Some(Insert(Evict(s), k, NewEntry(c, at))) else None
  }

  /** Mark a key active now, with new evidence. */
  function Activated(s: Shard, k: Key, h: Hist, at: int): Shard
    requires k in s.keys
  {
    s.(keys := s.keys[k := s.keys[k].(hist := h, lastActivity := at)], recency := MovedToFront(s.recency, k))
  }

  /** Learn a duration for a key; false when the key could not be tracked. */
  function Record(c: Config, s: Shard, k: Key, value: real, at: int): (Shard, bool)
    requires c.Valid() && Sound(c, s) && 0.0 <= value
  {
    var t := Touch(c, s, k, at);
    if t.None? then (s, false)
    else
      TouchSound(c, s, k, at);
      (Activated(t.value, k, Add(c.layout, t.value.keys[k].hist, c.decay, value), at), true)
  }

  function Censor(c: Config, s: Shard, k: Key, at: int): (Shard, bool)
    requires c.Valid() && Sound(c, s)
  {
    var t := Touch(c, s, k, at);
    if t.None? then (s, false)
    else
      TouchSound(c, s, k, at);
      (Activated(t.value, k, AddCensored(t.value.keys[k].hist, c.decay), at), true)
  }

  // ----- predicting -----

  function Fallback(c: Config, status: Status, seen: nat): Prediction {
    Prediction(None, c.defaultPriority, status, seen)
  }

  function Estimate(c: Config, h: Hist): real
    requires c.Valid() && |h.counts| == c.layout.Bins()
  {
    match c.summary
    case Median => Quantile.Of(c.layout, h, 0.5)
    case P75 => Quantile.Of(c.layout, h, 0.75)
    case Average => Mean(h)
  }

  function Larger(x: real, y: real): real {
    if x < y then y else x
  }

  function Spread(c: Config, h: Hist): real
    requires c.Valid() && |h.counts| == c.layout.Bins()
  {
    EdgesPositive(c.layout, 1);
    Quantile.Of(c.layout, h, c.spreadQuantile) / Larger(Quantile.Of(c.layout, h, 0.5), c.layout.edges[1])
  }

  /** The band in which a held tier is kept. */
  predicate InBand(c: Config, b: seq<real>, held: nat, estimate: real)
    requires held <= |b|
  {
    && (held == 0 || Mul(b[held - 1], 1.0 - c.hysteresis) <= estimate)
    && (held == 0 ==> 0.0 <= estimate)
    && (held < |b| ==> estimate < Mul(b[held], 1.0 + c.hysteresis))
  }

  function Tier(c: Config, held: int, b: seq<real>, estimate: real): (t: int)
    requires -1 <= held <= |b|
    ensures 0 <= t <= |b|
  {
    var t := TierOf(b, estimate);
    if held >= 0 && held != t && c.hysteresis > 0.0 && InBand(c, b, held, estimate) then held else t
  }

  function Evaluate(c: Config, e: Entry, b: seq<real>): (Entry, Prediction)
    requires c.Valid() && EntryOk(c, e) && |b| == c.levels - 1
  {
    var seen := e.hist.observations;
    if seen < c.minSamples then (e, Fallback(c, ColdKey, seen))
    else if CensoredFraction(e.hist) > c.maxCensored then (e, Fallback(c, Censored, seen))
    else if Spread(c, e.hist) > c.maxSpread then (e, Fallback(c, HighSpread, seen))
    else
      var estimate := Estimate(c, e.hist);
      if estimate < 0.0 then (e, Fallback(c, HighSpread, seen))
      else
        var t := Tier(c, e.tier, b, estimate);
        (e.(tier := t), Prediction(Some(estimate), t, Predicted, seen))
  }

  function Predict(c: Config, s: Shard, snap: Option<Snapshot>, k: Key, at: int): (Shard, Prediction)
    requires c.Valid() && Sound(c, s)
    requires snap.Some? ==> |snap.value.boundaries| == c.levels - 1
  {
    if !UsableKey(k) then (s, Fallback(c, InvalidKey, 0))
    else if snap.None? then (s, Fallback(c, Unready, 0))
    else if k !in s.keys then (s, Fallback(c, ColdKey, 0))
    else if Stale(c, s.keys[k], at) then (s, Fallback(c, StaleKey, s.keys[k].hist.observations))
    else
      var (e, p) := Evaluate(c, s.keys[k].(lastActivity := at), snap.value.boundaries);
      (s.(keys := s.keys[k := e], recency := MovedToFront(s.recency, k)), p)
  }

  // ----- invariants -----

  ghost predicate Distinct(r: seq<Key>) {
    r == [] || (r[0] !in r[1..] && Distinct(r[1..]))
  }

  /** The recency list is a permutation of the tracked keys. */
  ghost predicate Listed(s: Shard) {
    Distinct(s.recency) && forall k :: k in s.keys <==> k in s.recency
  }

  /** A restored histogram's total may be slightly off its counts; every operation keeps it so. */
  ghost predicate EntryOk(c: Config, e: Entry) {
    Acceptable(c.layout, e.hist) && -1 <= e.tier < c.levels
  }

  ghost predicate Sound(c: Config, s: Shard) {
    && Listed(s)
    && |s.keys| <= c.cap
    && (forall k :: k in s.keys ==> EntryOk(c, s.keys[k]))
  }

  /** Most recently active first. */
  ghost predicate Ordered(keys: map<Key, Entry>, r: seq<Key>)
    requires forall k :: k in r ==> k in keys
  {
    r == [] || ((forall k :: k in r ==> keys[k].lastActivity <= keys[r[0]].lastActivity) && Ordered(keys, r[1..]))
  }

  lemma {:induction false} ListedSize(keys: set<Key>, r: seq<Key>)
    requires Distinct(r) && forall k :: k in keys <==> k in r
    ensures |r| == |keys|
  {
    if r == [] {
      assert keys == {};
    } else {
      assert forall k :: k in r <==> k == r[0] || k in r[1..];
      ListedSize(keys - {r[0]}, r[1..]);
    }
  }

  lemma OldestListed(s: Shard)
    requires Listed(s) && s.recency != []
    ensures s.recency[|s.recency| - 1] in s.keys
  {
    assert s.recency[|s.recency| - 1] in s.recency;
  }

  lemma {:induction false} WithoutDistinct(r: seq<Key>, k: Key)
    requires Distinct(r)
    ensures Distinct(Without(r, k))
    ensures forall x :: x in Without(r, k) <==> x in r && x != k
  {
    if r != [] {
      assert forall x :: x in r <==> x == r[0] || x in r[1..];
      if r[0] != k {
        WithoutDistinct(r[1..], k);
        var w := Without(r, k);
        assert w[1..] == Without(r[1..], k);
        assert forall x :: x in w <==> x == r[0] || x in w[1..];
      }
    }
  }

  lemma {:induction false} ButLastDistinct(r: seq<Key>)
    requires Distinct(r) && r != []
    ensures var n := |r| - 1;
            && Distinct(r[..n])
            && forall x :: x in r[..n] <==> x in r && x != r[n]
  {
    var n := |r| - 1;
    assert forall x :: x in r <==> x == r[0] || x in r[1..];
    if n > 0 {
      ButLastDistinct(r[1..]);
      assert r[1..][..n - 1] == r[..n][1..];
      assert forall x :: x in r[..n] <==> x == r[0] || x in r[..n][1..];
      assert r[n] in r[1..];
    }
  }

  lemma WithKey(keys: map<Key, Entry>, k: Key, e: Entry)
    requires k !in keys
    ensures |keys[k := e]| == |keys| + 1
  {
    assert keys[k := e].Keys == keys.Keys + {k};
    assert |keys[k := e]| == |keys[k := e].Keys| && |keys| == |keys.Keys|;
  }

  lemma InsertListed(s: Shard, k: Key, e: Entry)
    requires Listed(s) && k !in s.keys
    ensures Listed(Insert(s, k, e))
  {
    var t := Insert(s, k, e);
    assert t.recency[1..] == s.recency;
    assert forall x :: x in t.recency <==> x == k || x in s.recency;
  }

  lemma InsertSound(c: Config, s: Shard, k: Key, e: Entry)
    requires c.Valid() && Sound(c, s) && k !in s.keys && |s.keys| < c.cap && EntryOk(c, e)
    ensures Sound(c, Insert(s, k, e)) && |Insert(s, k, e).keys| == |s.keys| + 1
  {
    InsertListed(s, k, e);
    WithKey(s.keys, k, e);
  }

  lemma WithoutKey(keys: map<Key, Entry>, k: Key)
    requires k in keys
    ensures |keys - {k}| == |keys| - 1
    ensures forall x :: x in keys - {k} <==> x in keys && x != k
    ensures forall x :: x in keys - {k} ==> (keys - {k})[x] == keys[x]
  {
    assert (keys - {k}).Keys == keys.Keys - {k};
    assert |keys - {k}| == |(keys - {k}).Keys| && |keys| == |keys.Keys|;
  }

  lemma EvictKeeps(s: Shard, e: Shard)
    requires Listed(s) && s.recency != [] && e == Evict(s)
    ensures forall x :: x in e.keys <==> x in s.keys && x != s.recency[|s.recency| - 1]
    ensures forall x :: x in e.keys ==> e.keys[x] == s.keys[x]
  {
  }

  lemma EvictSound(c: Config, s: Shard)
    requires c.Valid() && Sound(c, s) && s.recency != []
    ensures Sound(c, Evict(s)) && |Evict(s).keys| == |s.keys| - 1
  {
    ButLastDistinct(s.recency);
    OldestListed(s);
    EvictKeeps(s, Evict(s));
    WithoutKey(s.keys, s.recency[|s.recency| - 1]);
  }

  lemma UpdatedOk(c: Config, e: Entry, at: int)
    requires c.Valid() && EntryOk(c, e)
    ensures EntryOk(c, Updated(c, e, at)) && Updated(c, e, at).lastActivity == e.lastActivity
  {
    FreshAcceptable(c.layout);
    if c.halfLife > 0 {
      ShrinkAcceptable(c.layout, e.hist, c.halving(Gap(at, e.lastDecay)));
    }
  }

  lemma TouchSound(c: Config, s: Shard, k: Key, at: int)
    requires c.Valid() && Sound(c, s)
    ensures var t := Touch(c, s, k, at);
            t.Some? ==> Sound(c, t.value) && k in t.value.keys
  {
    if k in s.keys {
      UpdatedOk(c, s.keys[k], at);
      assert s.keys[k := Updated(c, s.keys[k], at)].Keys == s.keys.Keys;
      var t := Touch(c, s, k, at).value;
      assert |t.keys| == |t.keys.Keys| && |s.keys| == |s.keys.Keys|;
    } else if |s.keys| < c.cap {
      FreshAcceptable(c.layout);
      InsertSound(c, s, k, NewEntry(c, at));
    } else {
      ListedSize(s.keys.Keys, s.recency);
      EvictSound(c, s);
      if Touch(c, s, k, at).Some? {
        FreshAcceptable(c.layout);
        InsertSound(c, Evict(s), k, NewEntry(c, at));
      }
    }
  }

  lemma ActivatedSound(c: Config, s: Shard, k: Key, h: Hist, at: int)
    requires c.Valid() && Sound(c, s) && k in s.keys && Acceptable(c.layout, h)
    ensures Sound(c, Activated(s, k, h, at))
  {
    var t := Activated(s, k, h, at);
    WithoutDistinct(s.recency, k);
    assert t.recency[1..] == Without(s.recency, k);
    assert forall x :: x in t.recency <==> x == k || x in t.recency[1..];
    assert t.keys.Keys == s.keys.Keys;
    assert |t.keys| == |t.keys.Keys| && |s.keys| == |s.keys.Keys|;
  }

  /** Learning keeps the list a permutation of the keys and the size within the cap. */
  lemma RecordSound(c: Config, s: Shard, k: Key, value: real, at: int)
    requires c.Valid() && Sound(c, s) && 0.0 <= value
    ensures Sound(c, Record(c, s, k, value, at).0)
    ensures !Record(c, s, k, value, at).1 ==> Record(c, s, k, value, at).0 == s
  {
    var t := Touch(c, s, k, at);
    if t.Some? {
      TouchSound(c, s, k, at);
      AddAcceptable(c.layout, t.value.keys[k].hist, c.decay, value);
      ActivatedSound(c, t.value, k, Add(c.layout, t.value.keys[k].hist, c.decay, value), at);
    }
  }

  lemma CensorSound(c: Config, s: Shard, k: Key, at: int)
    requires c.Valid() && Sound(c, s)
    ensures Sound(c, Censor(c, s, k, at).0)
    ensures !Censor(c, s, k, at).1 ==> Censor(c, s, k, at).0 == s
  {
    var t := Touch(c, s, k, at);
    if t.Some? {
      TouchSound(c, s, k, at);
      AddCensoredAcceptable(c.layout, t.value.keys[k].hist, c.decay);
      ActivatedSound(c, t.value, k, AddCensored(t.value.keys[k].hist, c.decay), at);
    }
  }

  function NoEvidence(c: Config): Naive
    requires c.Valid()
  {
    Naive(seq(c.layout.Bins(), _ => 0.0), 0.0, 0.0, 0.0)
  }

  /** The plainly decayed weights a key's evidence stands for once it is touched: none when it is new
      or stale, decayed over a long enough gap, and as they were otherwise. */
  function Touched(c: Config, s: Shard, k: Key, at: int): Naive
    requires c.Valid() && Sound(c, s)
  {
    if k in s.keys then Renewed(c, s.keys[k], at) else NoEvidence(c)
  }

  function Renewed(c: Config, e: Entry, at: int): Naive
    requires c.Valid() && EntryOk(c, e)
  {
    var gap := Gap(at, e.lastDecay);
    if Stale(c, e, at) then NoEvidence(c)
    else if c.halfLife > 0 && gap >= NANOS_PER_SECOND then NaiveDecay(View(e.hist), c.halving(gap))
    else View(e.hist)
  }

  lemma FreshMeans(c: Config)
    requires c.Valid()
    ensures View(Fresh(c.layout)) == NoEvidence(c)
  {
    assert View(Fresh(c.layout)).counts == NoEvidence(c).counts;
  }

  lemma UpdatedMeans(c: Config, e: Entry, at: int)
    requires c.Valid() && EntryOk(c, e)
    ensures var h := Updated(c, e, at).hist;
            1.0 <= h.scale && View(h) == Renewed(c, e, at)
  {
    FreshMeans(c);
    ShrinkView(e.hist, c.halving(Gap(at, e.lastDecay)));
  }

  /** The histogram a touch leaves at its key. */
  lemma TouchHolds(c: Config, s: Shard, k: Key, at: int)
    requires c.Valid() && Sound(c, s) && Touch(c, s, k, at).Some?
    ensures var t := Touch(c, s, k, at).value;
            k in t.keys && t.keys[k].hist == if k in s.keys then Updated(c, s.keys[k], at).hist else Fresh(c.layout)
  {
  }

  lemma TouchMeans(c: Config, s: Shard, k: Key, at: int, h: Hist)
    requires c.Valid() && Sound(c, s)
    requires h == if k in s.keys then Updated(c, s.keys[k], at).hist else Fresh(c.layout)
    ensures 1.0 <= h.scale && View(h) == Touched(c, s, k, at)
  {
    if k in s.keys {
      UpdatedMeans(c, s.keys[k], at);
    } else {
      FreshMeans(c);
    }
  }

  lemma TouchElsewhere(c: Config, s: Shard, k: Key, at: int, x: Key)
    requires c.Valid() && Sound(c, s) && Touch(c, s, k, at).Some? && x != k
    ensures var t := Touch(c, s, k, at).value;
            x in t.keys ==> x in s.keys && t.keys[x] == s.keys[x]
  {
    ListedSize(s.keys.Keys, s.recency);
  }

  lemma RecordHolds(c: Config, s: Shard, k: Key, value: real, at: int)
    requires c.Valid() && Sound(c, s) && 0.0 <= value && Record(c, s, k, value, at).1
    ensures var t := Record(c, s, k, value, at).0;
            && k in t.keys && t.keys[k].lastActivity == at
            && (forall x :: x in t.keys && x != k ==> x in s.keys && t.keys[x] == s.keys[x])
    ensures var h := if k in s.keys then Updated(c, s.keys[k], at).hist else Fresh(c.layout);
            && |h.counts| == c.layout.Bins()
            && Record(c, s, k, value, at).0.keys[k].hist == Add(c.layout, h, c.decay, value)
  {
    TouchSound(c, s, k, at);
    TouchHolds(c, s, k, at);
    forall x | x in Record(c, s, k, value, at).0.keys && x != k
      ensures x in s.keys && Record(c, s, k, value, at).0.keys[x] == s.keys[x]
    {
      TouchElsewhere(c, s, k, at, x);
    }
  }

  /** Learning a duration adds one observation to the plainly decayed evidence of its key, and only
      of its key. */
  lemma RecordMeans(c: Config, s: Shard, k: Key, value: real, at: int)
    requires c.Valid() && Sound(c, s) && 0.0 <= value && Record(c, s, k, value, at).1
    ensures var t := Record(c, s, k, value, at).0;
            && k in t.keys && t.keys[k].lastActivity == at
            && (forall x :: x in t.keys && x != k ==> x in s.keys && t.keys[x] == s.keys[x])
            && 1.0 <= t.keys[k].hist.scale
            && View(t.keys[k].hist) == NaiveAdd(c.layout, Touched(c, s, k, at), c.decay, value)
  {
    RecordHolds(c, s, k, value, at);
    var h := if k in s.keys then Updated(c, s.keys[k], at).hist else Fresh(c.layout);
    TouchMeans(c, s, k, at, h);
    AddView(c.layout, h, c.decay, value);
  }

  // ----- predictions -----

  lemma EvaluateBounds(c: Config, e: Entry, b: seq<real>)
    requires c.Valid() && EntryOk(c, e) && |b| == c.levels - 1
    ensures var (f, p) := Evaluate(c, e, b);
            && EntryOk(c, f) && f == e.(tier := f.tier)
            && 0 <= p.bucket < c.levels
            && (p.status == Predicted ==> p.estimate.Some? && f.tier == p.bucket)
            && (p.status != Predicted ==> p.estimate.None? && p.bucket == c.defaultPriority && f == e)
  {
  }

  /** What the estimate is: half, or three quarters, of the key's total lies below it, or all of its
      weight where the counts of a restored histogram fall short of that; or it is the mean. */
  lemma EstimateMeans(c: Config, h: Hist)
    requires c.Valid() && Acceptable(c.layout, h) && 0.0 < h.total
    ensures var below := Quantile.WeightBelow(c.layout, h.counts, 0, Estimate(c, h));
            && (c.summary.Median? ==> below == Quantile.Smaller(Mul(0.5, h.total), Sum(h.counts)))
            && (c.summary.P75? ==> below == Quantile.Smaller(Mul(0.75, h.total), Sum(h.counts)))
            && (c.summary.Average? ==> Mul(Estimate(c, h), h.total) == h.sum)
    ensures NearlyFull(h) ==> Mul(0.75, h.total) < Sum(h.counts)
  {
    match c.summary
    case Median => Quantile.QuantileSplitsWeight(c.layout, h, 0.5);
    case P75 => Quantile.QuantileSplitsWeight(c.layout, h, 0.75);
    case Average => assert Mean(h) * h.total == h.sum;
    if NearlyFull(h) {
      ShareHeld(h, 0.75);
    }
  }

  /** Exactly the boundaries before the tier are at or below the value. */
  ghost predicate Splits(b: seq<real>, value: real, tier: int) {
    forall i :: 0 <= i < |b| ==> (b[i] <= value <==> i < tier)
  }

  lemma {:induction false} TierOfSplits(b: seq<real>, value: real)
    requires Increasing(b)
    ensures Splits(b, value, TierOf(b, value))
  {
    forall i | 0 <= i < |b|
      ensures b[i] <= value <==> i < TierOf(b, value)
    {
      TierSplits(b, value, i);
    }
  }

  lemma BandAround(c: Config, b: seq<real>, i: nat)
    requires c.Valid() && Usable(b) && i < |b|
    ensures Mul(b[i], 1.0 - c.hysteresis) <= b[i] <= Mul(b[i], 1.0 + c.hysteresis)
  {
    IncreasingPair(b, 0, i);
    NonNegativeProduct(b[i], c.hysteresis);
    assert b[i] * (1.0 - c.hysteresis) == b[i] - b[i] * c.hysteresis;
    assert b[i] * (1.0 + c.hysteresis) == b[i] + b[i] * c.hysteresis;
  }

  /** A held tier is left downwards only below its lower boundary by the band, and upwards only
      from its upper boundary by the band. */
  lemma TierLeft(c: Config, held: nat, b: seq<real>, x: real)
    requires c.Valid() && (b != [] ==> Usable(b)) && held <= |b| && 0.0 <= x && 0.0 < c.hysteresis
    ensures var t := Tier(c, held, b, x);
            && (t < held ==> x < Mul(b[held - 1], 1.0 - c.hysteresis))
            && (t > held ==> Mul(b[held], 1.0 + c.hysteresis) <= x)
            && (t != held ==> Splits(b, x, t))
            && (t == held <==> InBand(c, b, held, x))
  {
    TierOfSplits(b, x);
    if held > 0 {
      BandAround(c, b, held - 1);
    }
    if held < |b| {
      BandAround(c, b, held);
    }
  }

  /** A key's tier is stable: it changes only when the estimate leaves the band around the held tier,
      and then to the tier whose boundaries enclose the estimate; with nothing held, or no band, it
      always is that one. */
  lemma PredictedTier(c: Config, e: Entry, b: seq<real>)
    requires c.Valid() && EntryOk(c, e) && |b| == c.levels - 1 && (b != [] ==> Usable(b))
    ensures var p := Evaluate(c, e, b).1;
            p.status == Predicted ==>
              var x := p.estimate.value;
              if 0 <= e.tier && 0.0 < c.hysteresis then
                && (p.bucket < e.tier ==> x < Mul(b[e.tier - 1], 1.0 - c.hysteresis))
                && (p.bucket > e.tier ==> Mul(b[e.tier], 1.0 + c.hysteresis) <= x)
                && (p.bucket != e.tier ==> Splits(b, x, p.bucket))
                && (p.bucket == e.tier <==> InBand(c, b, e.tier, x))
              else Splits(b, x, p.bucket)
  {
    var p := Evaluate(c, e, b).1;
    if p.status == Predicted {
      if 0 <= e.tier && 0.0 < c.hysteresis {
        TierLeft(c, e.tier, b, p.estimate.value);
      } else {
        TierOfSplits(b, p.estimate.value);
      }
    }
  }

  /** Predicting keeps the table sound, answers within the levels, and never revives a stale key. */
  lemma PredictSound(c: Config, s: Shard, snap: Option<Snapshot>, k: Key, at: int)
    requires c.Valid() && Sound(c, s)
    requires snap.Some? ==> |snap.value.boundaries| == c.levels - 1
    ensures var (t, p) := Predict(c, s, snap, k, at);
            && Sound(c, t)
            && 0 <= p.bucket < c.levels
            && (p.status != Predicted ==> p.estimate.None? && p.bucket == c.defaultPriority)
            && (k in s.keys && Stale(c, s.keys[k], at) ==> t == s && p.status != Predicted)
            && t.keys.Keys == s.keys.Keys
  {
    var (t, p) := Predict(c, s, snap, k, at);
    if UsableKey(k) && snap.Some? && k in s.keys && !Stale(c, s.keys[k], at) {
      EvaluateBounds(c, s.keys[k].(lastActivity := at), snap.value.boundaries);
      WithoutDistinct(s.recency, k);
      assert t.recency[1..] == Without(s.recency, k);
      assert forall x :: x in t.recency <==> x == k || x in t.recency[1..];
      assert t.keys.Keys == s.keys.Keys;
      assert |t.keys| == |t.keys.Keys| && |s.keys| == |s.keys.Keys|;
    }
  }

  // ----- eviction -----

  /** A key leaves the table only by admission of another: it was the least recently active one, the
      shard was full, and it had been idle for its proven or unproven limit. */
  lemma EvictsOnlyIdleOldest(c: Config, s: Shard, k: Key, at: int, gone: Key)
    requires c.Valid() && Sound(c, s) && Touch(c, s, k, at).Some?
    requires gone in s.keys && gone !in Touch(c, s, k, at).value.keys
    ensures |s.keys| == c.cap && k !in s.keys
    ensures s.recency != [] && gone == s.recency[|s.recency| - 1]
    ensures var limit := if s.keys[gone].hist.observations < c.minSamples then c.coldGrace else c.idleEviction;
            0 < limit <= Gap(at, s.keys[gone].lastActivity)
    ensures Ordered(s.keys, s.recency) ==>
              forall x :: x in s.keys ==> s.keys[gone].lastActivity <= s.keys[x].lastActivity
  {
    ListedSize(s.keys.Keys, s.recency);
    assert |s.keys| == |s.keys.Keys|;
    if Ordered(s.keys, s.recency) {
      LastIsOldest(s.keys, s.recency);
    }
  }

  lemma {:induction false} LastIsOldest(keys: map<Key, Entry>, r: seq<Key>)
    requires r != [] && (forall k :: k in r ==> k in keys) && Ordered(keys, r)
    ensures forall x :: x in r ==> keys[r[|r| - 1]].lastActivity <= keys[x].lastActivity
  {
    assert forall x :: x in r <==> x == r[0] || x in r[1..];
    if |r| > 1 {
      LastIsOldest(keys, r[1..]);
    }
  }

  lemma FullTouch(c: Config, s: Shard, k: Key, at: int, oldest: Key)
    requires c.Valid() && Sound(c, s) && k !in s.keys && |s.keys| == c.cap
    requires s.recency != [] && oldest == s.recency[|s.recency| - 1] && oldest in s.keys
    ensures var t := Touch(c, s, k, at);
            && (t.Some? <==> Recyclable(c, s.keys[oldest], at))
            && (t.Some? ==> t.value.keys.Keys == s.keys.Keys - {oldest} + {k} && t.value.evictions == s.evictions + 1)
  {
    var t := Touch(c, s, k, at);
    if t.Some? {
      assert t.value.keys == (s.keys - {oldest})[k := NewEntry(c, at)];
    }
  }

  lemma RecordedKeys(c: Config, s: Shard, k: Key, value: real, at: int)
    requires c.Valid() && Sound(c, s) && 0.0 <= value
    ensures var t, r := Touch(c, s, k, at), Record(c, s, k, value, at);
            && (r.1 <==> t.Some?)
            && (t.Some? ==> r.0.keys.Keys == t.value.keys.Keys && r.0.evictions == t.value.evictions)
            && (t.None? ==> r.0 == s)
  {
    TouchSound(c, s, k, at);
  }

  /** A full shard takes a newcomer exactly when its least recently active key has been idle for its
      own limit. Then that key, and no other, makes room; otherwise nothing changes. */
  lemma FullShardAdmits(c: Config, s: Shard, k: Key, value: real, at: int) returns (oldest: Key)
    requires c.Valid() && Sound(c, s) && k !in s.keys && |s.keys| == c.cap && 0.0 <= value
    ensures oldest in s.keys
    ensures Ordered(s.keys, s.recency) ==>
              forall x :: x in s.keys ==> s.keys[oldest].lastActivity <= s.keys[x].lastActivity
    ensures var (t, kept) := Record(c, s, k, value, at);
            var limit := if s.keys[oldest].hist.observations < c.minSamples then c.coldGrace else c.idleEviction;
            && (kept <==> 0 < limit <= Gap(at, s.keys[oldest].lastActivity))
            && (kept ==> t.keys.Keys == s.keys.Keys - {oldest} + {k} && t.evictions == s.evictions + 1)
            && (!kept ==> t == s)
  {
    oldest := OldestOf(c, s);
    FullTouch(c, s, k, at, oldest);
    RecordedKeys(c, s, k, value, at);
  }

  lemma OldestOf(c: Config, s: Shard) returns (oldest: Key)
    requires c.Valid() && Sound(c, s) && |s.keys| == c.cap
    ensures s.recency != [] && oldest == s.recency[|s.recency| - 1] && oldest in s.keys
    ensures Ordered(s.keys, s.recency) ==>
              forall x :: x in s.keys ==> s.keys[oldest].lastActivity <= s.keys[x].lastActivity
  {
    ListedSize(s.keys.Keys, s.recency);
    assert |s.keys| == |s.keys.Keys|;
    OldestListed(s);
    oldest := s.recency[|s.recency| - 1];
    if Ordered(s.keys, s.recency) {
      LastIsOldest(s.keys, s.recency);
    }
  }

  // ----- recency order -----

  lemma {:induction false} OrderedFrame(keys: map<Key, Entry>, others: map<Key, Entry>, r: seq<Key>)
    requires forall k :: k in r ==> k in keys && k in others && keys[k].lastActivity == others[k].lastActivity
    ensures Ordered(keys, r) <==> Ordered(others, r)
  {
    if r != [] {
      OrderedFrame(keys, others, r[1..]);
    }
  }

  lemma {:induction false} OrderedWithout(keys: map<Key, Entry>, r: seq<Key>, k: Key)
    requires Distinct(r) && (forall x :: x in r ==> x in keys) && Ordered(keys, r)
    ensures forall x :: x in Without(r, k) ==> x in r
    ensures Ordered(keys, Without(r, k))
  {
    WithoutDistinct(r, k);
    if r != [] && r[0] != k {
      OrderedWithout(keys, r[1..], k);
      assert Without(r, k)[1..] == Without(r[1..], k);
    }
  }

  lemma {:induction false} OrderedButLast(keys: map<Key, Entry>, r: seq<Key>)
    requires r != [] && (forall x :: x in r ==> x in keys) && Ordered(keys, r)
    ensures forall x :: x in r[..|r| - 1] ==> x in r
    ensures Ordered(keys, r[..|r| - 1])
  {
    var n := |r| - 1;
    if n > 0 {
      OrderedButLast(keys, r[1..]);
      assert r[..n][1..] == r[1..][..n - 1];
    }
  }

  lemma EvictLists(s: Shard, e: Shard)
    requires Listed(s) && s.recency != [] && e == Evict(s)
    ensures forall x :: x in e.recency ==> x in s.keys && x in e.keys && e.keys[x] == s.keys[x]
    ensures forall x :: x in e.keys ==> x in s.keys && e.keys[x] == s.keys[x]
  {
    EvictKeeps(s, e);
    ButLastDistinct(s.recency);
  }

  /** The keys behind the one that is touched keep their order. */
  ghost predicate TailOrdered(s: Shard, k: Key) {
    && Listed(s) && k in s.keys
    && (forall x :: x in Without(s.recency, k) <==> x in s.keys && x != k)
    && Ordered(s.keys, Without(s.recency, k))
  }

  lemma TailKept(s: Shard, k: Key)
    requires Listed(s) && Ordered(s.keys, s.recency) && k in s.keys
    ensures TailOrdered(s, k)
  {
    WithoutDistinct(s.recency, k);
    OrderedWithout(s.keys, s.recency, k);
  }

  lemma InsertTail(s: Shard, k: Key, e: Entry)
    requires Listed(s) && Ordered(s.keys, s.recency) && k !in s.keys
    ensures TailOrdered(Insert(s, k, e), k)
  {
    var t := Insert(s, k, e);
    InsertListed(s, k, e);
    assert t.recency[0] == k && t.recency[1..] == s.recency;
    OrderedFrame(s.keys, t.keys, s.recency);
  }

  lemma EvictTail(s: Shard)
    requires Listed(s) && s.recency != [] && Ordered(s.keys, s.recency)
    ensures Listed(Evict(s)) && Ordered(Evict(s).keys, Evict(s).recency)
  {
    var e := Evict(s);
    EvictLists(s, e);
    ButLastDistinct(s.recency);
    OrderedButLast(s.keys, s.recency);
    OrderedFrame(s.keys, e.keys, e.recency);
  }

  lemma TouchTail(c: Config, s: Shard, k: Key, at: int)
    requires c.Valid() && Sound(c, s) && Ordered(s.keys, s.recency) && Touch(c, s, k, at).Some?
    ensures TailOrdered(Touch(c, s, k, at).value, k)
  {
    var t := Touch(c, s, k, at).value;
    if k in s.keys {
      OrderedFrame(s.keys, t.keys, s.recency);
      TailKept(t, k);
    } else if |s.keys| < c.cap {
      InsertTail(s, k, NewEntry(c, at));
    } else {
      ListedSize(s.keys.Keys, s.recency);
      EvictTail(s);
      InsertTail(Evict(s), k, NewEntry(c, at));
    }
  }

  /** Marking a key active leaves the list ordered exactly when the reading is no earlier than the
      activity of every other key. */
  lemma ActivatedOrder(s: Shard, k: Key, h: Hist, at: int)
    requires TailOrdered(s, k)
    ensures var t := Activated(s, k, h, at);
            && (forall x :: x in t.recency ==> x in t.keys)
            && (Ordered(t.keys, t.recency) <==> OthersNoLater(t, k, at))
  {
    var t := Activated(s, k, h, at);
    var w := Without(s.recency, k);
    OrderedFrame(s.keys, t.keys, w);
    assert t.recency[0] == k && t.recency[1..] == w;
    assert forall x :: x in t.recency <==> x == k || x in w;
    if Ordered(t.keys, t.recency) {
      forall x | x in t.keys && x != k
        ensures t.keys[x].lastActivity <= at
      {
        assert x in t.recency;
      }
    }
  }

  ghost predicate OthersNoLater(s: Shard, k: Key, at: int) {
    forall x :: x in s.keys && x != k ==> s.keys[x].lastActivity <= at
  }

  ghost predicate NoLaterThan(s: Shard, at: int) {
    forall k :: k in s.keys ==> s.keys[k].lastActivity <= at
  }

  // ----- every history of one shard -----

  datatype Op = Learn(key: Key, value: real, at: int) | Overrun(key: Key, at: int)
              | Ask(key: Key, snapshot: Option<Snapshot>, at: int)

  ghost predicate Sensible(c: Config, op: Op) {
    && (op.Learn? ==> 0.0 <= op.value)
    && (op.Ask? && op.snapshot.Some? ==> |op.snapshot.value.boundaries| == c.levels - 1)
  }

  function Apply(c: Config, s: Shard, op: Op): Shard
    requires c.Valid() && Sound(c, s) && Sensible(c, op)
  {
    match op
    case Learn(k, value, at) => Record(c, s, k, value, at).0
    case Overrun(k, at) => Censor(c, s, k, at).0
    case Ask(k, snap, at) => Predict(c, s, snap, k, at).0
  }

  lemma ApplySound(c: Config, s: Shard, op: Op)
    requires c.Valid() && Sound(c, s) && Sensible(c, op)
    ensures Sound(c, Apply(c, s, op))
  {
    match op
    case Learn(k, value, at) => RecordSound(c, s, k, value, at);
    case Overrun(k, at) => CensorSound(c, s, k, at);
    case Ask(k, snap, at) => PredictSound(c, s, snap, k, at);
  }

  ghost predicate InOrder(s: Shard) {
    (forall x :: x in s.recency ==> x in s.keys) && Ordered(s.keys, s.recency)
  }

  lemma RecordOrder(c: Config, s: Shard, k: Key, value: real, at: int)
    requires c.Valid() && Sound(c, s) && Ordered(s.keys, s.recency) && 0.0 <= value && Touch(c, s, k, at).Some?
    ensures var t := Record(c, s, k, value, at).0;
            InOrder(t) <==> OthersNoLater(t, k, at)
  {
    var t := Touch(c, s, k, at);
    TouchSound(c, s, k, at);
    TouchTail(c, s, k, at);
    ActivatedOrder(t.value, k, Add(c.layout, t.value.keys[k].hist, c.decay, value), at);
  }

  lemma CensorOrder(c: Config, s: Shard, k: Key, at: int)
    requires c.Valid() && Sound(c, s) && Ordered(s.keys, s.recency) && Touch(c, s, k, at).Some?
    ensures var t := Censor(c, s, k, at).0;
            InOrder(t) <==> OthersNoLater(t, k, at)
  {
    var t := Touch(c, s, k, at);
    TouchSound(c, s, k, at);
    TouchTail(c, s, k, at);
    ActivatedOrder(t.value, k, AddCensored(t.value.keys[k].hist, c.decay), at);
  }

  /** A prediction that is made marks its key active and changes nothing else but the tier. */
  lemma PredictActivates(c: Config, s: Shard, snap: Option<Snapshot>, k: Key, at: int)
    requires c.Valid() && Sound(c, s) && snap.Some? && |snap.value.boundaries| == c.levels - 1
    requires UsableKey(k) && k in s.keys && !Stale(c, s.keys[k], at)
    ensures var t, a := Predict(c, s, snap, k, at).0, Activated(s, k, s.keys[k].hist, at);
            && t.recency == a.recency && t.keys.Keys == a.keys.Keys
            && forall x :: x in t.keys ==> t.keys[x].lastActivity == a.keys[x].lastActivity
  {
    EvaluateBounds(c, s.keys[k].(lastActivity := at), snap.value.boundaries);
  }

  lemma SameOrder(a: Shard, t: Shard)
    requires t.recency == a.recency && t.keys.Keys == a.keys.Keys
    requires forall x :: x in t.keys ==> t.keys[x].lastActivity == a.keys[x].lastActivity
    ensures InOrder(t) <==> InOrder(a)
  {
    if forall x :: x in a.recency ==> x in a.keys {
      OrderedFrame(a.keys, t.keys, a.recency);
    }
  }

  lemma PredictOrder(c: Config, s: Shard, snap: Option<Snapshot>, k: Key, at: int)
    requires c.Valid() && Sound(c, s) && Ordered(s.keys, s.recency)
    requires snap.Some? && |snap.value.boundaries| == c.levels - 1
    requires UsableKey(k) && k in s.keys && !Stale(c, s.keys[k], at)
    ensures var t := Predict(c, s, snap, k, at).0;
            InOrder(t) <==> OthersNoLater(t, k, at)
  {
    var a := Activated(s, k, s.keys[k].hist, at);
    TailKept(s, k);
    ActivatedOrder(s, k, s.keys[k].hist, at);
    PredictActivates(c, s, snap, k, at);
    SameOrder(a, Predict(c, s, snap, k, at).0);
  }

  /** The operation finds nothing to do: a prediction that is not made, or a new key for a full shard
      whose oldest key is not idle. */
  ghost predicate Idle(c: Config, s: Shard, op: Op)
    requires c.Valid() && Sound(c, s)
  {
    if op.Ask? then
      !UsableKey(op.key) || op.snapshot.None? || op.key !in s.keys || Stale(c, s.keys[op.key], op.at)
    else
      Crowded(c, s, op.key) && !Recyclable(c, s.keys[OldestKey(c, s)], op.at)
  }

  /** A key that would need another's place. */
  ghost predicate Crowded(c: Config, s: Shard, k: Key) {
    k !in s.keys && |s.keys| == c.cap
  }

  ghost function OldestKey(c: Config, s: Shard): (k: Key)
    requires c.Valid() && Sound(c, s) && |s.keys| == c.cap
    ensures k in s.keys
  {
    ListedSize(s.keys.Keys, s.recency);
    assert |s.keys| == |s.keys.Keys|;
    OldestListed(s);
    s.recency[|s.recency| - 1]
  }

  /** The keys an operation leaves behind its own. */
  ghost predicate Stays(c: Config, s: Shard, op: Op, x: Key)
    requires c.Valid() && Sound(c, s)
  {
    x in s.keys && x != op.key && (!op.Ask? && Crowded(c, s, op.key) ==> x != OldestKey(c, s))
  }

  lemma TouchStays(c: Config, s: Shard, op: Op, x: Key)
    requires c.Valid() && Sound(c, s) && !op.Ask?
    ensures Touch(c, s, op.key, op.at).Some? <==> !Idle(c, s, op)
    ensures var t := Touch(c, s, op.key, op.at);
            t.Some? && x != op.key ==> (x in t.value.keys <==> Stays(c, s, op, x))
    ensures var t := Touch(c, s, op.key, op.at);
            t.Some? && Stays(c, s, op, x) ==> x in t.value.keys && t.value.keys[x] == s.keys[x]
  {
    if Crowded(c, s, op.key) {
      FullTouch(c, s, op.key, op.at, OldestKey(c, s));
    } else {
      TouchedWithRoom(c, s, op.key, op.at);
    }
    if Touch(c, s, op.key, op.at).Some? && x != op.key {
      TouchElsewhere(c, s, op.key, op.at, x);
    }
  }

  lemma IdleChangesNothing(c: Config, s: Shard, op: Op)
    requires c.Valid() && Sound(c, s) && Sensible(c, op) && Idle(c, s, op)
    ensures Apply(c, s, op) == s
  {
    if !op.Ask? {
      TouchStays(c, s, op, op.key);
    }
  }

  lemma OthersStay(c: Config, s: Shard, op: Op)
    requires c.Valid() && Sound(c, s) && Sensible(c, op) && !Idle(c, s, op)
    ensures OthersNoLater(Apply(c, s, op), op.key, op.at) <==>
            forall x :: Stays(c, s, op, x) ==> s.keys[x].lastActivity <= op.at
  {
    forall x | x != op.key
      ensures x in Apply(c, s, op).keys <==> Stays(c, s, op, x)
      ensures Stays(c, s, op, x) ==> Apply(c, s, op).keys[x].lastActivity == s.keys[x].lastActivity
    {
      StaysPut(c, s, op, x);
    }
  }

  lemma StaysPut(c: Config, s: Shard, op: Op, x: Key)
    requires c.Valid() && Sound(c, s) && Sensible(c, op) && !Idle(c, s, op) && x != op.key
    ensures x in Apply(c, s, op).keys <==> Stays(c, s, op, x)
    ensures Stays(c, s, op, x) ==> Apply(c, s, op).keys[x].lastActivity == s.keys[x].lastActivity
  {
    if op.Ask? {
      PredictActivates(c, s, op.snapshot, op.key, op.at);
    } else {
      TouchStays(c, s, op, x);
      TouchSound(c, s, op.key, op.at);
    }
  }

  lemma ActiveOrder(c: Config, s: Shard, op: Op)
    requires c.Valid() && Sound(c, s) && InOrder(s) && Sensible(c, op) && !Idle(c, s, op)
    ensures InOrder(Apply(c, s, op)) <==> OthersNoLater(Apply(c, s, op), op.key, op.at)
  {
    match op
    case Learn(k, value, at) =>
      TouchStays(c, s, op, k);
      RecordOrder(c, s, k, value, at);
    case Overrun(k, at) =>
      TouchStays(c, s, op, k);
      CensorOrder(c, s, k, at);
    case Ask(k, snap, at) => PredictOrder(c, s, snap, k, at);
  }

  /** An operation leaves an ordered table ordered if and only if it finds nothing to do or its reading
      is no earlier than the activity of every key that stays behind its own: a reading taken before
      the lock can be late. */
  lemma ApplyOrder(c: Config, s: Shard, op: Op)
    requires c.Valid() && Sound(c, s) && InOrder(s) && Sensible(c, op)
    ensures InOrder(Apply(c, s, op)) <==>
            || Idle(c, s, op)
            || forall x :: Stays(c, s, op, x) ==> s.keys[x].lastActivity <= op.at
  {
    if Idle(c, s, op) {
      IdleChangesNothing(c, s, op);
    } else {
      ActiveOrder(c, s, op);
      OthersStay(c, s, op);
    }
  }

  /** Where times between readings fit in 64 bits, a key that makes room was itself idle before the
      reading, so the condition is on every other key. */
  lemma ApplyOrderClocked(c: Config, s: Shard, op: Op)
    requires c.Valid() && Sound(c, s) && InOrder(s) && Sensible(c, op)
    requires forall x :: x in s.keys ==> Fits64(op.at - s.keys[x].lastActivity)
    ensures InOrder(Apply(c, s, op)) <==> Idle(c, s, op) || OthersNoLater(s, op.key, op.at)
  {
    ApplyOrder(c, s, op);
    if !Idle(c, s, op) && !op.Ask? && Crowded(c, s, op.key) {
      WrapExact(op.at - s.keys[OldestKey(c, s)].lastActivity);
    }
  }

  lemma ApplyNoLater(c: Config, s: Shard, op: Op)
    requires c.Valid() && Sound(c, s) && Sensible(c, op) && NoLaterThan(s, op.at)
    ensures NoLaterThan(Apply(c, s, op), op.at)
  {
  }

  /** The shard after a history, from an empty one. */
  ghost function After(c: Config, ops: seq<Op>): (s: Shard)
    requires c.Valid() && forall i :: 0 <= i < |ops| ==> Sensible(c, ops[i])
    ensures Sound(c, s)
  {
    if ops == [] then Shard(map[], [], 0)
    else
      ApplySound(c, After(c, ops[..|ops| - 1]), ops[|ops| - 1]);
      Apply(c, After(c, ops[..|ops| - 1]), ops[|ops| - 1])
  }

  /** Readings are no earlier than those of the operations before. */
  ghost predicate InLockOrder(ops: seq<Op>) {
    forall i :: 0 < i < |ops| ==> ops[i - 1].at <= ops[i].at
  }

  /** After every history with readings in lock order the recency list is a permutation of the keys
      ordered by activity, and the shard is within its cap. */
  lemma {:induction false} TableIsLru(c: Config, ops: seq<Op>)
    requires c.Valid() && (forall i :: 0 <= i < |ops| ==> Sensible(c, ops[i])) && InLockOrder(ops)
    ensures var s := After(c, ops);
            && InOrder(s) && |s.recency| == |s.keys| <= c.cap
            && (ops != [] ==> NoLaterThan(s, ops[|ops| - 1].at))
  {
    if ops != [] {
      var n := |ops| - 1;
      var s := After(c, ops[..n]);
      TableIsLru(c, ops[..n]);
      if n > 0 {
        assert ops[..n][n - 1] == ops[n - 1];
      }
      ApplyOrder(c, s, ops[n]);
      ApplyNoLater(c, s, ops[n]);
    }
    var s := After(c, ops);
    ListedSize(s.keys.Keys, s.recency);
    assert |s.keys| == |s.keys.Keys|;
  }

  lemma LearnedWithRoom(c: Config, s: Shard, k: Key, value: real, at: int)
    requires c.Valid() && Sound(c, s) && 0.0 <= value && (k in s.keys || |s.keys| < c.cap)
    ensures var t := Apply(c, s, Learn(k, value, at));
            && t.keys.Keys == s.keys.Keys + {k} && t.keys[k].lastActivity == at
            && (forall x :: x in s.keys && x != k ==> t.keys[x] == s.keys[x])
  {
    TouchedWithRoom(c, s, k, at);
    RecordedKeys(c, s, k, value, at);
    RecordHolds(c, s, k, value, at);
  }

  lemma TouchedWithRoom(c: Config, s: Shard, k: Key, at: int)
    requires c.Valid() && Sound(c, s) && (k in s.keys || |s.keys| < c.cap)
    ensures Touch(c, s, k, at).Some? && Touch(c, s, k, at).value.keys.Keys == s.keys.Keys + {k}
  {
  }

  lemma {:induction false} AfterOneMore(c: Config, ops: seq<Op>, op: Op)
    requires c.Valid() && (forall i :: 0 <= i < |ops| ==> Sensible(c, ops[i])) && Sensible(c, op)
    ensures After(c, ops + [op]) == Apply(c, After(c, ops), op)
  {
    assert (ops + [op])[..|ops|] == ops;
  }

  lemma {:induction false} LearnMore(c: Config, ops: seq<Op>, k: Key, value: real, at: int)
    requires c.Valid() && (forall i :: 0 <= i < |ops| ==> Sensible(c, ops[i])) && 0.0 <= value
    requires |After(c, ops).keys| < c.cap
    ensures var s, t := After(c, ops), After(c, ops + [Learn(k, value, at)]);
            && t.keys.Keys == s.keys.Keys + {k} && t.keys[k].lastActivity == at
  {
    AfterOneMore(c, ops, Learn(k, value, at));
    LearnedWithRoom(c, After(c, ops), k, value, at);
  }

  lemma OneKey(keys: map<Key, Entry>, k: Key)
    requires keys.Keys == {k}
    ensures |keys| == 1
  {
    assert |keys| == |keys.Keys|;
  }

  /** A history in lock order after which both keys are tracked, b as of time 7. */
  ghost predicate BothTracked(c: Config, ops: seq<Op>, a: Key, b: Key) {
    && c.Valid() && (forall i :: 0 <= i < |ops| ==> Sensible(c, ops[i])) && InLockOrder(ops)
    && a != b && a in After(c, ops).keys && b in After(c, ops).keys && After(c, ops).keys[b].lastActivity == 7
  }

  lemma {:induction false} LateLearned(c: Config, ops: seq<Op>, a: Key, b: Key, value: real)
    requires BothTracked(c, ops, a, b) && 0.0 <= value
    ensures !InOrder(After(c, ops + [Learn(a, value, 5)]))
  {
    var s, late := After(c, ops), Learn(a, value, 5);
    TableIsLru(c, ops);
    AfterOneMore(c, ops, late);
    LearnedWithRoom(c, s, a, value, 5);
    ApplyOrder(c, s, late);
    assert b in Apply(c, s, late).keys;
  }

  lemma {:induction false} OneLearned(c: Config, ops: seq<Op>, a: Key, value: real)
    requires c.Valid() && 0.0 <= value && ops == [Learn(a, value, 3)]
    ensures After(c, ops).keys.Keys == {a} && |After(c, ops).keys| == 1
  {
    assert [] + [Learn(a, value, 3)] == ops;
    LearnMore(c, [], a, value, 3);
    OneKey(After(c, ops).keys, a);
  }

  lemma TwoLearned(c: Config, ops: seq<Op>, a: Key, b: Key, value: real)
    requires c.Valid() && 2 <= c.cap && a != b && 0.0 <= value && ops == [Learn(a, value, 3)]
    ensures BothTracked(c, ops + [Learn(b, value, 7)], a, b)
  {
    OneLearned(c, ops, a, value);
    LearnMore(c, ops, b, value, 7);
    assert InLockOrder(ops + [Learn(b, value, 7)]);
  }

  lemma {:induction false} LateAfterTwo(c: Config, one: seq<Op>, a: Key, b: Key, value: real)
    requires c.Valid() && 2 <= c.cap && a != b && 0.0 <= value && one == [Learn(a, value, 3)]
    ensures !InOrder(After(c, one + [Learn(b, value, 7)] + [Learn(a, value, 5)]))
  {
    TwoLearned(c, one, a, b, value);
    LateLearned(c, one + [Learn(b, value, 7)], a, b, value);
  }

  /** A late reading does break the order: a, then b, then a again with a reading before b's. */
  lemma {:induction false} LateReadingBreaksOrder(c: Config, a: Key, b: Key, value: real, ops: seq<Op>)
    requires c.Valid() && 2 <= c.cap && a != b && 0.0 <= value
    requires ops == [Learn(a, value, 3), Learn(b, value, 7), Learn(a, value, 5)]
    ensures !InOrder(After(c, ops))
  {
    assert ops == ops[..1] + [Learn(b, value, 7)] + [Learn(a, value, 5)];
    LateAfterTwo(c, ops[..1], a, b, value);
  }
}
