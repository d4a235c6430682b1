/** The predictor as the program keeps it: locked shards, a global histogram with its published
    boundaries, and counters, all updated in place. */
module PerKeyPredictor {
  import opened Options
  import opened Histogram
  import opened HistogramTolerance
  import opened Wire
  import opened KeyTable
  import opened KeyShard
  import opened SnapshotCodec
  import P = Predictor
  import R = PredictorRuns
  import B = Boundaries
  import Quantile

  ghost function Values(shards: seq<LockedShard>): (values: seq<Shard>)
    reads shards
    ensures |values| == |shards|
    ensures forall i :: 0 <= i < |shards| ==> values[i] == shards[i].Value()
  {
    seq(|shards|, i requires 0 <= i < |shards| reads shards => shards[i].Value())
  }

  /** The global histogram and the boundaries published from it, under the global lock. */
  class GlobalState {
    const rule: B.Rule
    var value: B.Global

    ghost predicate Steady()
      reads this
    {
      rule.Valid() && B.Steady(rule, value)
    }

    constructor (r: B.Rule)
      requires r.Valid()
      ensures rule == r && Steady() && value == B.Start(r)
    {
      rule := r;
      value := B.Start(r);
      B.StartSteady(r);
    }

    /** The quantiles that would be the boundaries now. */
    method FreshQuantiles() returns (b: seq<real>)
      requires Steady()
      ensures b == B.FreshBoundaries(rule, value.hist)
    {
      b := [];
      for i := 0 to rule.levels - 1
        invariant b == B.FreshBoundaries(rule, value.hist)[..i]
      {
        b := b + [Quantile.Of(rule.layout, value.hist, B.Share(i, rule.levels))];
      }
    }

    /** Keep the boundaries that moved within the band. */
    method HoldBoundaries(latest: seq<real>, prior: seq<real>) returns (held: seq<real>)
      requires |latest| == |prior|
      ensures held == B.Held(latest, prior, rule.hysteresis)
    {
      held := latest;
      for i := 0 to |latest|
        invariant |held| == |latest|
        invariant forall k :: 0 <= k < i ==> held[k] == B.Held(latest, prior, rule.hysteresis)[k]
        invariant forall k :: i <= k < |latest| ==> held[k] == latest[k]
      {
        if B.Distance(latest[i], prior[i]) <= Mul(rule.hysteresis, prior[i]) {
          held := held[i := prior[i]];
        }
      }
    }

    method RefreshBoundaries()
      requires Steady()
      modifies this
      ensures value == B.Refreshed(rule, old(value))
    {
      var latest := FreshQuantiles();
      if !B.Usable(latest) {
        value := value.(degenerate := value.degenerate + 1);
        return;
      }
      if value.snapshot.Some? {
        var prior := value.snapshot.value.boundaries;
        var held := HoldBoundaries(latest, prior);
        if B.Usable(held) {
          latest := held;
        }
        if latest == prior {
          return;
        }
      }
      value := value.(snapshots := Next64(value.snapshots),
                      snapshot := Some(B.Snapshot(Next64(value.snapshots), latest)));
    }

    /** Learn one duration and refresh the boundaries when due; true when it was beyond the last edge. */
    method Learn(duration: real) returns (saturated: bool)
      requires Steady() && 0.0 <= duration
      modifies this
      ensures Steady() && value == B.Observe(rule, old(value), duration)
      ensures saturated <==> duration > rule.layout.MaxMs()
    {
      B.ObserveSteady(rule, value, duration);
      AddAcceptable(rule.layout, value.hist, rule.decay, duration);
      saturated := duration > rule.layout.MaxMs();
      value := value.(hist := Add(rule.layout, value.hist, rule.decay, duration),
                      observations := Next64(value.observations));
      if rule.levels > 1 && value.observations >= rule.minSamples &&
         (value.snapshot.None? || value.observations % rule.every == 0) {
        RefreshBoundaries();
      }
    }

    method Restore(image: Image)
      modifies this
      ensures value == B.Reloaded(rule.levels, old(value), image.global, image.observations, image.boundaries)
    {
      value := value.(hist := image.global, observations := image.observations);
      if image.boundaries.Some? {
        value := value.(snapshots := B.Later(value.snapshots, image.boundaries.value.sequence));
      }
      if image.boundaries.Some? || rule.levels > 1 {
        value := value.(snapshot := image.boundaries);
      }
    }
  }

  class DurationPredictor {
    const setup: P.Setup
    const shards: seq<LockedShard>
    const global: GlobalState
    var observed: nat
    var rejected: nat
    var overflow: nat
    var saturated: nat
    var censored: nat

    ghost function State(): P.State
      reads shards, global
    {
      P.State(Values(shards), global.value)
    }

    ghost predicate Separate() {
      forall i, j :: 0 <= i < j < |shards| ==> shards[i] != shards[j]
    }

    ghost predicate Sound()
      reads shards, global
    {
      && setup.Valid() && Separate()
      && |shards| == setup.format.shards
      && global.rule == setup.rule
      && P.Inv(setup, State())
    }

    constructor (s: P.Setup)
      requires s.Valid()
      ensures Sound() && setup == s && State() == R.After(s, [])
      ensures fresh(shards) && fresh(global)
    {
      var all: seq<LockedShard> := [];
      for i := 0 to s.format.shards
        invariant |all| == i && fresh(all)
        invariant forall k :: 0 <= k < i ==> all[k].Value() == Shard(map[], [], 0)
        invariant forall j, k :: 0 <= j < k < i ==> all[j] != all[k]
      {
        var shard := new LockedShard();
        all := all + [shard];
      }
      setup, shards := s, all;
      global := new GlobalState(s.rule);
      observed, rejected, overflow, saturated, censored := 0, 0, 0, 0, 0;
      new;
      assert Values(shards) == R.After(s, []).shards;
    }

    /** A completed duration counts for its key, its parent key if it has one, and the global histogram. */
    method Observe(key: Key, parent: Key, value: real, at: int) returns (accepted: bool)
      requires Sound()
      modifies this, shards, global
      ensures Sound()
      ensures accepted == R.Observable(key, parent, value)
      ensures State() == if accepted then R.Observed(setup, old(State()), key, parent, value, at) else old(State())
      ensures observed == old(observed) + (if accepted then 1 else 0)
      ensures rejected == old(rejected) + (if accepted then 0 else 1)
    {
      accepted := R.Observable(key, parent, value);
      if accepted {
        LearnDuration(key, parent, value, at);
        observed := observed + 1;
      } else {
        rejected := rejected + 1;
      }
    }

    method LearnDuration(key: Key, parent: Key, value: real, at: int)
      requires Sound() && R.Observable(key, parent, value)
      modifies `overflow, `saturated, shards, global
      ensures Sound() && State() == R.Observed(setup, old(State()), key, parent, value, at)
    {
      B.ObserveSteady(setup.rule, global.value, value);
      R.RecordsKeep(setup, State(), key, parent, value, at);
      RecordKeys(key, parent, value, at);
      ghost var recorded := Values(shards);
      var beyond := global.Learn(value);
      assert Values(shards) == recorded;
      if beyond {
        saturated := saturated + 1;
      }
    }

    method RecordKeys(key: Key, parent: Key, value: real, at: int)
      requires Sound() && R.Observable(key, parent, value)
      modifies `overflow, shards
      ensures Sound()
      ensures State() == R.KeysRecorded(setup, old(State()), key, parent, value, at)
    {
      var kept := RecordKey(key, value, at);
      if parent.bytes != [] {
        kept := RecordKey(parent, value, at);
      }
    }

    /** Learn a duration for one key; only the overflow count changes when it cannot be tracked. */
    method RecordKey(key: Key, value: real, at: int) returns (kept: bool)
      requires Sound() && UsableKey(key) && 0.0 <= value
      modifies `overflow, shards
      ensures Sound()
      ensures (State(), kept) == R.KeyRecorded(setup, old(State()), key, value, at)
      ensures overflow == old(overflow) + if kept then 0 else 1
    {
      R.RecordKeeps(setup, State(), key, value, at);
      var i := setup.Home(key);
      R.ShardSound(setup, State(), i);
      kept := shards[i].Learn(setup.keys, key, value, at);
      assert Values(shards) == old(Values(shards))[i := shards[i].Value()];
      if !kept {
        overflow := overflow + 1;
      }
    }

    method ObserveCensored(key: Key, at: int) returns (kept: bool)
      requires Sound()
      modifies this, shards
      ensures Sound()
      ensures State() == if UsableKey(key) then R.KeyCensored(setup, old(State()), key, at).0 else old(State())
      ensures kept <==> UsableKey(key) && R.KeyCensored(setup, old(State()), key, at).1
      ensures censored == old(censored) + if kept then 1 else 0
    {
      if !UsableKey(key) {
        rejected := rejected + 1;
        return false;
      }
      kept := CensorKey(key, at);
      if kept {
        censored := censored + 1;
      } else {
        overflow := overflow + 1;
      }
    }

    method CensorKey(key: Key, at: int) returns (kept: bool)
      requires Sound() && UsableKey(key)
      modifies shards
      ensures Sound()
      ensures (State(), kept) == R.KeyCensored(setup, old(State()), key, at)
    {
      R.CensorKeeps(setup, State(), key, at);
      var i := setup.Home(key);
      R.ShardSound(setup, State(), i);
      kept := shards[i].LearnCensored(setup.keys, key, at);
      assert Values(shards) == old(Values(shards))[i := shards[i].Value()];
    }

    method Predict(key: Key, at: int) returns (answer: Prediction)
      requires Sound()
      modifies shards
      ensures Sound()
      ensures (State(), answer) == R.Asked(setup, old(State()), key, old(State()).global.snapshot, at)
    {
      R.PredictKeeps(setup, State(), key, global.value.snapshot, at);
      var i := setup.Home(key);
      R.ShardSound(setup, State(), i);
      answer := shards[i].Ask(setup.keys, global.value.snapshot, key, at);
      assert Values(shards) == old(Values(shards))[i := shards[i].Value()];
    }

    /** Collect every shard's keys, then write them with the global state. */
    method Save(context: seq<Byte>, at: int) returns (data: seq<Byte>)
      requires Sound()
      ensures data == Serialize(setup.format, context, P.Saved(setup, State(), at))
    {
      var records: seq<Record> := [];
      for i := 0 to |shards|
        invariant records == P.Records(setup, Values(shards), i, at)
      {
        var shard := Shard(shards[i].keys, shards[i].recency, shards[i].evictions);
        records := records + P.ShardRecords(setup, shard, at);
      }
      data := Serialize(setup.format, context,
                        Image(global.value.snapshot, global.value.hist, global.value.observations, records));
    }

    method ClearShards()
      requires Separate()
      modifies shards
      ensures Values(shards) == P.Cleared(old(Values(shards)))
    {
      for i := 0 to |shards|
        invariant forall k :: 0 <= k < i ==> shards[k].Value() == P.Cleared(old(Values(shards)))[k]
        invariant forall k :: i <= k < |shards| ==> shards[k].Value() == old(Values(shards))[k]
      {
        shards[i].Clear();
      }
    }

    /** Put one record back, unless its shard is full or already has the key. */
    method RestoreKey(r: Record, at: int) returns (back: bool)
      requires Separate() && 1 <= setup.format.shards == |shards|
      modifies shards
      ensures Values(shards) == P.RestoreOne(setup, old(Values(shards)), r, at)
      ensures P.Population(Values(shards)) == P.Population(old(Values(shards))) + if back then 1 else 0
    {
      P.PopulationRestored(setup, Values(shards), r, at);
      var i := setup.Home(r.key);
      back := |shards[i].keys| < setup.keys.cap && r.key !in shards[i].keys;
      if back {
        shards[i].PushFront(r.key, P.EntryOf(r, at));
      }
      assert Values(shards) == old(Values(shards))[i := shards[i].Value()];
    }

    /** Put the records back in order, skipping full shards and repeated keys. */
    method RestoreKeys(keys: seq<Record>, at: int) returns (restored: nat)
      requires Separate() && 1 <= setup.format.shards == |shards|
      modifies shards
      ensures Values(shards) == P.Restored(setup, old(Values(shards)), keys, at)
      ensures restored == P.Population(Values(shards)) - P.Population(old(Values(shards)))
    {
      restored := 0;
      assert keys[..|keys|] == keys;
      for j := 0 to |keys|
        invariant Values(shards) == P.Restored(setup, old(Values(shards)), keys[..j], at)
        invariant restored == P.Population(Values(shards)) - P.Population(old(Values(shards)))
      {
        assert keys[..j + 1][..j] == keys[..j];
        var back := RestoreKey(keys[j], at);
        if back {
          restored := restored + 1;
        }
      }
    }

    /** Replace every shard's keys by the image's, oldest first. */
    method ReplaceKeys(records: seq<Record>, at: int) returns (restored: nat)
      requires setup.Valid() && Separate() && setup.format.shards == |shards|
      modifies shards
      ensures Values(shards) == P.Restored(setup, P.Cleared(old(Values(shards))), setup.sort(records), at)
      ensures restored == P.Population(Values(shards))
    {
      ClearShards();
      P.EmptyPopulation(Values(shards));
      restored := RestoreKeys(setup.sort(records), at);
    }

    /** Restore a snapshot, oldest keys first; bytes that do not parse change nothing. */
    method Load(data: seq<Byte>, context: seq<Byte>, at: int) returns (failure: Option<Error>, restored: nat)
      requires Sound()
      modifies shards, global
      ensures Sound()
      ensures State() == P.Loaded(setup, old(State()), data, context, at)
      ensures failure.Some? <==> Parse(setup.format, data, context).Fail?
      ensures failure.Some? ==> State() == old(State())
      ensures restored == if failure.Some? then 0 else P.Population(State().shards)
    {
      P.LoadKeeps(setup, State(), data, context, at);
      restored := 0;
      var parsed := Parse(setup.format, data, context);
      if parsed.Fail? {
        return Some(parsed.error), restored;
      }
      restored := ReplaceKeys(parsed.value.records, at);
      global.Restore(parsed.value);
      failure := None;
    }
  }
}
