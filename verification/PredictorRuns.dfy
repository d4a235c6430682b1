/** The predictor's operations and what every history of them keeps. Each operation is one region the
    program runs under one lock: a completed duration is learned by its key, its parent key and the
    global histogram in turn. */
module PredictorRuns {
  import opened Options
  import opened Wire
  import opened KeyTable
  import opened SnapshotCodec
  import opened Predictor
  import B = Boundaries

  // ----- operations -----

  /** Predict with the boundaries read before the shard's lock was taken. */
  function Asked(s: Setup, p: State, k: Key, seen: Option<B.Snapshot>, at: int): (State, Prediction)
    requires s.Basic() && Inv(s, p) && (seen.Some? ==> |seen.value.boundaries| == s.keys.levels - 1)
  {
    var i := s.Home(k);
    ShardSound(s, p, i);
    var (shard, answer) := Predict(s.keys, p.shards[i], seen, k, at);
    (p.(shards := p.shards[i := shard]), answer)
  }

  function KeyRecorded(s: Setup, p: State, k: Key, value: real, at: int): (State, bool)
    requires s.Basic() && Inv(s, p) && 0.0 <= value
  {
    var i := s.Home(k);
    var (shard, kept) := KeyTable.Record(s.keys, p.shards[i], k, value, at);
    (p.(shards := p.shards[i := shard]), kept)
  }

  function KeyCensored(s: Setup, p: State, k: Key, at: int): (State, bool)
    requires s.Basic() && Inv(s, p)
  {
    var i := s.Home(k);
    var (shard, kept) := Censor(s.keys, p.shards[i], k, at);
    (p.(shards := p.shards[i := shard]), kept)
  }

  predicate Observable(k: Key, parent: Key, value: real) {
    UsableKey(k) && (parent.bytes == [] || UsableKey(parent)) && 0.0 <= value
  }

  function KeysRecorded(s: Setup, p: State, k: Key, parent: Key, value: real, at: int): State
    requires s.Basic() && Inv(s, p) && Observable(k, parent, value)
  {
    RecordKeeps(s, p, k, value, at);
    var q := KeyRecorded(s, p, k, value, at).0;
    if parent.bytes == [] then q else KeyRecorded(s, q, parent, value, at).0
  }

  /** A completed duration counts for its key, its parent key if it has one, and the global histogram. */
  function Observed(s: Setup, p: State, k: Key, parent: Key, value: real, at: int): State
    requires s.Basic() && Inv(s, p) && Observable(k, parent, value)
  {
    KeysRecorded(s, p, k, parent, value, at).(global := B.Observe(s.rule, p.global, value))
  }

  lemma RecordsKeep(s: Setup, p: State, k: Key, parent: Key, value: real, at: int)
    requires s.Basic() && Inv(s, p) && Observable(k, parent, value)
    ensures Inv(s, KeysRecorded(s, p, k, parent, value, at))
    ensures KeysRecorded(s, p, k, parent, value, at).global == p.global
  {
    RecordKeeps(s, p, k, value, at);
    if parent.bytes != [] {
      RecordKeeps(s, KeyRecorded(s, p, k, value, at).0, parent, value, at);
    }
  }

  lemma ShardReplaced(s: Setup, p: State, i: nat, shard: Shard)
    requires s.Basic() && Inv(s, p) && i < |p.shards| && Sound(s.keys, shard) && Housed(s, i, shard)
    ensures Inv(s, p.(shards := p.shards[i := shard]))
  {
  }

  lemma ShardSound(s: Setup, p: State, i: nat)
    requires s.Basic() && Inv(s, p) && i < |p.shards|
    ensures Sound(s.keys, p.shards[i])
    ensures p.global.snapshot.Some? ==> |p.global.snapshot.value.boundaries| == s.keys.levels - 1
  {
    assert p.shards[i] in p.shards;
  }

  lemma TouchHoused(s: Setup, shard: Shard, k: Key, at: int)
    requires s.Basic() && Sound(s.keys, shard) && Housed(s, s.Home(k), shard) && UsableKey(k)
    ensures var t := Touch(s.keys, shard, k, at);
            t.Some? ==> Housed(s, s.Home(k), t.value)
  {
  }

  lemma RecordKeeps(s: Setup, p: State, k: Key, value: real, at: int)
    requires s.Basic() && Inv(s, p) && UsableKey(k) && 0.0 <= value
    ensures Inv(s, KeyRecorded(s, p, k, value, at).0)
    ensures KeyRecorded(s, p, k, value, at).0.global == p.global
  {
    var i := s.Home(k);
    var shard := p.shards[i];
    RecordSound(s.keys, shard, k, value, at);
    TouchSound(s.keys, shard, k, at);
    TouchHoused(s, shard, k, at);
    ShardReplaced(s, p, i, KeyTable.Record(s.keys, shard, k, value, at).0);
  }

  lemma CensorKeeps(s: Setup, p: State, k: Key, at: int)
    requires s.Basic() && Inv(s, p) && UsableKey(k)
    ensures Inv(s, KeyCensored(s, p, k, at).0)
  {
    var i := s.Home(k);
    var shard := p.shards[i];
    CensorSound(s.keys, shard, k, at);
    TouchSound(s.keys, shard, k, at);
    TouchHoused(s, shard, k, at);
    ShardReplaced(s, p, i, Censor(s.keys, shard, k, at).0);
  }

  lemma PredictKeeps(s: Setup, p: State, k: Key, seen: Option<B.Snapshot>, at: int)
    requires s.Basic() && Inv(s, p) && (seen.Some? ==> |seen.value.boundaries| == s.keys.levels - 1)
    ensures Inv(s, Asked(s, p, k, seen, at).0)
    ensures 0 <= Asked(s, p, k, seen, at).1.bucket < s.keys.levels
  {
    var i := s.Home(k);
    var shard := p.shards[i];
    ShardSound(s, p, i);
    PredictSound(s.keys, shard, seen, k, at);
    ShardReplaced(s, p, i, Predict(s.keys, shard, seen, k, at).0);
  }

  datatype Op = KeyLearns(key: Key, value: real, at: int) | GlobalLearns(value: real, at: int)
              | Overran(key: Key, at: int) | Question(key: Key, seen: Option<B.Snapshot>, at: int)
              | Restore(data: seq<Byte>, context: seq<Byte>, at: int)

  /** What the caller checks before the operation takes a lock. */
  ghost predicate Legal(s: Setup, op: Op) {
    match op
    case KeyLearns(k, value, _) => UsableKey(k) && 0.0 <= value
    case GlobalLearns(value, _) => 0.0 <= value
    case Overran(k, _) => UsableKey(k)
    case Question(_, seen, _) => seen.Some? ==> |seen.value.boundaries| == s.keys.levels - 1
    case Restore(_, _, _) => true
  }

  /** One operation; a refused one changes nothing. */
  ghost function Step(s: Setup, p: State, op: Op): State
    requires s.Valid() && Inv(s, p)
  {
    if !Legal(s, op) then p
    else match op
      case KeyLearns(k, value, at) => KeyRecorded(s, p, k, value, at).0
      case GlobalLearns(value, _) => p.(global := B.Observe(s.rule, p.global, value))
      case Overran(k, at) => KeyCensored(s, p, k, at).0
      case Question(k, seen, at) => Asked(s, p, k, seen, at).0
      case Restore(data, context, at) => Loaded(s, p, data, context, at)
  }

  /** Learning a duration is these operations, one lock after another. */
  lemma ObservedSteps(s: Setup, p: State, k: Key, parent: Key, value: real, at: int)
    requires s.Valid() && Inv(s, p) && Observable(k, parent, value)
    ensures Inv(s, Step(s, p, KeyLearns(k, value, at)))
    ensures var q := Step(s, p, KeyLearns(k, value, at));
            var r := if parent.bytes == [] then q else Step(s, q, KeyLearns(parent, value, at));
            Inv(s, r) && Observed(s, p, k, parent, value, at) == Step(s, r, GlobalLearns(value, at))
  {
    RecordKeeps(s, p, k, value, at);
    RecordsKeep(s, p, k, parent, value, at);
  }

  lemma StepKeepsInvariant(s: Setup, p: State, op: Op)
    requires s.Valid() && Inv(s, p)
    ensures Inv(s, Step(s, p, op))
  {
    if Legal(s, op) {
      match op
      case KeyLearns(k, value, at) => RecordKeeps(s, p, k, value, at);
      case GlobalLearns(value, _) => B.ObserveSteady(s.rule, p.global, value);
      case Overran(k, at) => CensorKeeps(s, p, k, at);
      case Question(k, seen, at) => PredictKeeps(s, p, k, seen, at);
      case Restore(data, context, at) => LoadKeepsInvariant(s, p, data, context, at);
    }
  }

  /** No operation makes a degenerate refresh, and a trusted histogram that learned has boundaries. */
  lemma StepNeverDegenerate(s: Setup, p: State, op: Op)
    requires s.Valid() && Inv(s, p)
    ensures var q := Step(s, p, op);
            && q.global.degenerate == p.global.degenerate
            && (op.GlobalLearns? && Legal(s, op) && B.Trusted(s.rule, q.global) ==> q.global.snapshot.Some?)
  {
    if op.GlobalLearns? && Legal(s, op) {
      B.ObserveNeverDegenerate(s.rule, p.global, op.value);
    }
  }

  /** The state after a history, in any interleaving. Whatever bytes were restored, no refresh was ever
      degenerate, and a trusted histogram has boundaries as soon as a duration is learned. */
  ghost function After(s: Setup, ops: seq<Op>): (p: State)
    requires s.Valid()
    ensures Inv(s, p) && p.global.degenerate == 0
    ensures ops != [] && ops[|ops| - 1].GlobalLearns? && Legal(s, ops[|ops| - 1]) && B.Trusted(s.rule, p.global) ==>
              p.global.snapshot.Some?
  {
    if ops == [] then
      B.StartSteady(s.rule);
      ClearedOk(s, seq(s.format.shards, _ => Shard(map[], [], 0)));
      State(Cleared(seq(s.format.shards, _ => Shard(map[], [], 0))), B.Start(s.rule))
    else
      StepKeepsInvariant(s, After(s, ops[..|ops| - 1]), ops[|ops| - 1]);
      StepNeverDegenerate(s, After(s, ops[..|ops| - 1]), ops[|ops| - 1]);
      Step(s, After(s, ops[..|ops| - 1]), ops[|ops| - 1])
  }

  // ----- recency across all operations -----

  /** Every list is ordered by activity, none of it after the given time. */
  ghost predicate Recent(p: State, at: int) {
    AllOrdered(p.shards) && AllNoLater(p.shards, at)
  }

  lemma ShardRecent(s: Setup, p: State, i: nat, op: KeyTable.Op)
    requires s.Basic() && Inv(s, p) && i < |p.shards| && Sensible(s.keys, op) && Recent(p, op.at)
    ensures Sound(s.keys, p.shards[i])
    ensures Recent(p.(shards := p.shards[i := Apply(s.keys, p.shards[i], op)]), op.at)
  {
    assert p.shards[i] in p.shards;
    ApplyOrder(s.keys, p.shards[i], op);
    ApplyNoLater(s.keys, p.shards[i], op);
  }

  lemma RecordRecent(s: Setup, p: State, k: Key, value: real, at: int)
    requires s.Basic() && Inv(s, p) && 0.0 <= value && Recent(p, at)
    ensures Recent(KeyRecorded(s, p, k, value, at).0, at)
  {
    ShardRecent(s, p, s.Home(k), Learn(k, value, at));
  }

  /** The clock reaches back to every age a load restores. */
  ghost predicate LoadFits(s: Setup, op: Op)
    requires s.Valid()
  {
    op.Restore? ==>
      var r := Parse(s.format, op.data, op.context);
      r.Done? ==> AgesFit(r.value.records, op.at)
  }

  lemma SortedAges(s: Setup, rs: seq<Record>, at: int)
    requires s.Valid() && AgesFit(rs, at)
    ensures AgesFit(s.sort(rs), at)
  {
    assert multiset(s.sort(rs)) == multiset(rs);
    forall r | r in s.sort(rs)
      ensures r in rs
    {
      assert r in multiset(s.sort(rs));
    }
  }

  lemma LoadRecent(s: Setup, p: State, data: seq<Byte>, context: seq<Byte>, at: int)
    requires s.Valid() && Inv(s, p) && Recent(p, at) && LoadFits(s, Restore(data, context, at))
    ensures Recent(Loaded(s, p, data, context, at), at)
  {
    AcceptedIsRestorable(s.format, data, context);
    LoadKeepsInvariant(s, p, data, context, at);
    var r := Parse(s.format, data, context);
    if r.Done? {
      var rs := s.sort(r.value.records);
      SortedOk(s, r.value.records);
      SortedAges(s, r.value.records, at);
      FittingAgesInOrder(s, rs, at);
      RestoredNoLater(s, Cleared(p.shards), rs, at);
    }
  }

  lemma StepRecent(s: Setup, p: State, op: Op)
    requires s.Valid() && Inv(s, p) && Recent(p, op.at) && LoadFits(s, op)
    ensures Recent(Step(s, p, op), op.at)
  {
    if Legal(s, op) {
      match op
      case KeyLearns(k, value, at) => RecordRecent(s, p, k, value, at);
      case GlobalLearns(_, _) =>
      case Overran(k, at) => ShardRecent(s, p, s.Home(k), Overrun(k, at));
      case Question(k, seen, at) => ShardRecent(s, p, s.Home(k), Ask(k, seen, at));
      case Restore(data, context, at) => LoadRecent(s, p, data, context, at);
    }
  }

  /** Readings are no earlier than those of the operations before. */
  ghost predicate ReadInOrder(ops: seq<Op>) {
    forall i :: 0 < i < |ops| ==> ops[i - 1].at <= ops[i].at
  }

  ghost predicate LoadsFit(s: Setup, ops: seq<Op>)
    requires s.Valid()
  {
    forall i :: 0 <= i < |ops| ==> LoadFits(s, ops[i])
  }

  /** After every history whose readings are in lock order, and whose loads hold only ages the clock
      reaches back to, every shard's list is ordered by activity. */
  lemma {:induction false} ListsStayOrdered(s: Setup, ops: seq<Op>)
    requires s.Valid() && ReadInOrder(ops) && LoadsFit(s, ops)
    ensures AllOrdered(After(s, ops).shards)
    ensures ops != [] ==> AllNoLater(After(s, ops).shards, ops[|ops| - 1].at)
  {
    if ops == [] {
      StartOrdered(s);
    } else {
      var n := |ops| - 1;
      ListsStayOrdered(s, ops[..n]);
      if n == 0 {
        StartOrdered(s);
      } else {
        assert ops[..n][n - 1] == ops[n - 1];
        LaterBound(After(s, ops[..n]).shards, ops[n - 1].at, ops[n].at);
      }
      StepRecent(s, After(s, ops[..n]), ops[n]);
    }
  }

  lemma {:induction false} StartOrdered(s: Setup)
    requires s.Valid()
    ensures AllOrdered(After(s, []).shards) && forall at :: AllNoLater(After(s, []).shards, at)
  {
    ClearedOk(s, seq(s.format.shards, _ => Shard(map[], [], 0)));
  }

  /** Saved ages are always short enough for the clock, so what save writes is restored in order. */
  lemma SavedAgesFit(s: Setup, p: State, saved: int, at: int)
    requires s.Valid() && Inv(s, p) && 0 <= at && Fits64(at)
    ensures Chronological(s, s.sort(Saved(s, p, saved).records), at)
  {
    var rs := Saved(s, p, saved).records;
    forall r | r in rs
      ensures AgeFits(r.age, at)
    {
      RecordsTracked(s, p.shards, s.format.shards, saved, r, rs);
      var e := p.shards[s.Home(r.key)].keys[r.key];
      AgeRestored(e.lastActivity, saved, at);
      TimeExact(r.age, at);
    }
    SortedAges(s, rs, at);
    assert Descending(s.sort(rs));
    FittingAgesInOrder(s, s.sort(rs), at);
  }

  /** After every history, what save writes is accepted and restores the same keys, tiers, ages and
      global state, with every list in order. */
  lemma {:induction false} EveryStateRoundTrips(s: Setup, ops: seq<Op>, saved: int, q: State, at: int,
                                                context: seq<Byte>)
    requires s.Valid() && Inv(s, q) && Machine(s, After(s, ops), saved)
    requires |context| <= MAX_CONTEXT
    requires |Serialize(s.format, context, Saved(s, After(s, ops), saved))| <= MAX_BYTES
    ensures var p := After(s, ops);
            var t := Loaded(s, q, Serialize(s.format, context, Saved(s, p, saved)), context, at);
            && Inv(s, t) && SameKeys(p, saved, t, at)
            && (0 <= at && Fits64(at) ==> AllOrdered(t.shards))
            && t.global.hist == p.global.hist && t.global.observations == p.global.observations
            && t.global.snapshot == p.global.snapshot
  {
    var p := After(s, ops);
    SnapshotRoundTrip(s, p, saved, q, at, context);
    LoadKeepsInvariant(s, q, Serialize(s.format, context, Saved(s, p, saved)), context, at);
    if 0 <= at && Fits64(at) {
      SavedStorable(s, p, saved);
      RoundTrip(s.format, context, Saved(s, p, saved));
      SavedAgesFit(s, p, saved, at);
    }
  }
}
