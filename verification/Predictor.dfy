/** The per-key predictor's whole state, saved to a snapshot and restored from one. */
module Predictor {
  import opened Options
  import opened Wire
  import opened KeyTable
  import opened SnapshotCodec
  import B = Boundaries

  const NANOS_PER_MILLI := 1_000_000

  /** Configuration, and the library behaviour the predictor relies on: a key hash, a map's
      iteration order and a sort by age. */
  datatype Setup = Setup(keys: Config, rule: B.Rule, format: Format, hash: Key -> nat,
                         enumerate: map<Key, Entry> -> seq<Key>, sort: seq<Record> -> seq<Record>)
  {
    ghost predicate Valid() {
      Basic() && Lists() && Sorts()
    }

    ghost predicate Lists() {
      forall m :: Enumerates(enumerate(m), m)
    }

    ghost predicate Sorts() {
      forall rs :: multiset(sort(rs)) == multiset(rs) && Descending(sort(rs))
    }

    ghost predicate Basic() {
      && keys.Valid() && rule.Valid() && format.Valid()
      && keys.layout == rule.layout == format.layout
      && keys.levels == rule.levels == format.levels
      && keys.cap == ShardCap(format.maxKeys, format.shards)
    }

    function Home(k: Key): (i: nat)
      requires 1 <= format.shards
      ensures i < format.shards
    {
      hash(k) % format.shards
    }
  }

  /** Keys are spread over the shards; each shard takes an equal part, rounded up. */
  function ShardCap(maxKeys: nat, shards: nat): nat
    requires 1 <= shards
  {
    (maxKeys + shards - 1) / shards
  }

  ghost predicate Enumerates(order: seq<Key>, keys: map<Key, Entry>) {
    Distinct(order) && forall k :: k in keys <==> k in order
  }

  /** Oldest first. */
  ghost predicate Descending(rs: seq<Record>) {
    rs == [] || (Descending(rs[..|rs| - 1]) && forall r :: r in rs ==> rs[|rs| - 1].age <= r.age)
  }

  datatype State = State(shards: seq<Shard>, global: B.Global)

  /** Every key of a shard is usable and hashes to it. */
  ghost predicate Housed(s: Setup, i: nat, shard: Shard)
    requires 1 <= s.format.shards
  {
    forall k :: k in shard.keys ==> UsableKey(k) && s.Home(k) == i
  }

  ghost predicate AllHoused(s: Setup, shards: seq<Shard>)
    requires 1 <= s.format.shards
  {
    |shards| == s.format.shards && forall i :: 0 <= i < |shards| ==> Housed(s, i, shards[i])
  }

  ghost predicate AllSound(c: Config, shards: seq<Shard>) {
    forall shard :: shard in shards ==> Sound(c, shard)
  }

  ghost predicate Inv(s: Setup, p: State)
    requires s.Basic()
  {
    AllHoused(s, p.shards) && AllSound(s.keys, p.shards) && B.Steady(s.rule, p.global)
  }

  // ----- saving -----

  /** Whole milliseconds since the last activity, never negative. */
  function Age(last: int, at: int): nat {
    if Gap(at, last) < 0 then 0 else Gap(at, last) / NANOS_PER_MILLI
  }

  function RecordOf(k: Key, e: Entry, at: int): Record {
    Record(k, e.hist, Age(e.lastActivity, at), e.tier)
  }

  function RecordsIn(keys: map<Key, Entry>, order: seq<Key>, at: int): (rs: seq<Record>)
    requires forall k :: k in order ==> k in keys
    ensures |rs| == |order|
    ensures forall i :: 0 <= i < |order| ==> rs[i] == RecordOf(order[i], keys[order[i]], at)
  {
    seq(|order|, i requires 0 <= i < |order| => RecordOf(order[i], keys[order[i]], at))
  }

  function ShardRecords(s: Setup, shard: Shard, at: int): seq<Record>
    requires s.Lists()
  {
    assert Enumerates(s.enumerate(shard.keys), shard.keys);
    RecordsIn(shard.keys, s.enumerate(shard.keys), at)
  }

  /** The records of the first n shards. */
  function Records(s: Setup, shards: seq<Shard>, n: nat, at: int): seq<Record>
    requires s.Lists() && n <= |shards|
  {
    if n == 0 then [] else Records(s, shards, n - 1, at) + ShardRecords(s, shards[n - 1], at)
  }

  function Saved(s: Setup, p: State, at: int): Image
    requires s.Valid() && Inv(s, p)
  {
    Image(p.global.snapshot, p.global.hist, p.global.observations, Records(s, p.shards, s.format.shards, at))
  }

  ghost predicate Known(shard: Shard, at: int, r: Record) {
    r.key in shard.keys && r == RecordOf(r.key, shard.keys[r.key], at)
  }

  /** The record of a key that some shard tracks. */
  ghost predicate Tracked(s: Setup, shards: seq<Shard>, n: nat, at: int, r: Record)
    requires 1 <= s.format.shards && n <= |shards|
  {
    s.Home(r.key) < n && Known(shards[s.Home(r.key)], at, r)
  }

  ghost predicate NoDuplicates(rs: seq<Record>) {
    forall r :: multiset(rs)[r] <= 1
  }

  lemma {:induction false} DistinctCount(order: seq<Key>, rs: seq<Record>, r: Record)
    requires Distinct(order) && |rs| == |order| && forall i :: 0 <= i < |rs| ==> rs[i].key == order[i]
    ensures multiset(rs)[r] <= 1 && (multiset(rs)[r] == 1 ==> r.key in order)
  {
    if rs != [] {
      assert rs == [rs[0]] + rs[1..];
      DistinctCount(order[1..], rs[1..], r);
    }
  }

  lemma RecordsInKnown(shard: Shard, order: seq<Key>, at: int, rs: seq<Record>, r: Record)
    requires Enumerates(order, shard.keys) && rs == RecordsIn(shard.keys, order, at)
    ensures r in rs <==> Known(shard, at, r)
    ensures multiset(rs)[r] <= 1
  {
    DistinctCount(order, rs, r);
    if Known(shard, at, r) {
      var i :| 0 <= i < |order| && order[i] == r.key;
      assert rs[i] == r;
    }
  }

  lemma ShardRecordsKnown(s: Setup, shard: Shard, at: int, rs: seq<Record>, r: Record)
    requires s.Lists() && rs == ShardRecords(s, shard, at)
    ensures r in rs <==> Known(shard, at, r)
    ensures multiset(rs)[r] <= 1
  {
    assert Enumerates(s.enumerate(shard.keys), shard.keys);
    RecordsInKnown(shard, s.enumerate(shard.keys), at, rs, r);
  }

  lemma JoinedOnce(front: seq<Record>, part: seq<Record>, r: Record)
    requires multiset(front)[r] <= 1 && multiset(part)[r] <= 1 && !(r in front && r in part)
    ensures multiset(front + part)[r] <= 1
    ensures r in front + part <==> r in front || r in part
  {
    assert multiset(front + part)[r] == multiset(front)[r] + multiset(part)[r];
    assert r in front <==> r in multiset(front);
    assert r in part <==> r in multiset(part);
  }

  lemma TrackedStep(s: Setup, shards: seq<Shard>, n: nat, at: int, r: Record)
    requires 1 <= s.format.shards && AllHoused(s, shards) && 0 < n <= |shards|
    ensures Tracked(s, shards, n, at, r) <==> Tracked(s, shards, n - 1, at, r) || Known(shards[n - 1], at, r)
    ensures !(Tracked(s, shards, n - 1, at, r) && Known(shards[n - 1], at, r))
  {
    assert Housed(s, n - 1, shards[n - 1]);
  }

  /** Every tracked key is saved, once. */
  lemma {:induction false} RecordsTracked(s: Setup, shards: seq<Shard>, n: nat, at: int, r: Record, rs: seq<Record>)
    requires 1 <= s.format.shards && s.Lists() && AllHoused(s, shards) && n <= |shards|
    requires rs == Records(s, shards, n, at)
    ensures r in rs <==> Tracked(s, shards, n, at, r)
    ensures multiset(rs)[r] <= 1
  {
    if n > 0 {
      var front := Records(s, shards, n - 1, at);
      RecordsTracked(s, shards, n - 1, at, r, front);
      TrackedStep(s, shards, n, at, r);
      var part := ShardRecords(s, shards[n - 1], at);
      ShardRecordsKnown(s, shards[n - 1], at, part, r);
      JoinedOnce(front, part, r);
    }
  }

  function Product(x: nat, y: nat): nat {
    x * y
  }

  lemma ProductStep(x: nat, y: nat)
    requires 0 < y
    ensures Product(x, y) == Product(x, y - 1) + x
  {
  }

  lemma ShardRecordsBounded(s: Setup, shard: Shard, at: int)
    requires s.Lists() && Sound(s.keys, shard)
    ensures |ShardRecords(s, shard, at)| <= s.keys.cap
  {
    assert Enumerates(s.enumerate(shard.keys), shard.keys);
    ListedSize(shard.keys.Keys, s.enumerate(shard.keys));
    assert |shard.keys| == |shard.keys.Keys|;
  }

  lemma {:induction false} RecordsBounded(s: Setup, shards: seq<Shard>, n: nat, at: int)
    requires s.Lists() && AllSound(s.keys, shards) && n <= |shards|
    ensures |Records(s, shards, n, at)| <= Product(s.keys.cap, n)
  {
    if n > 0 {
      RecordsBounded(s, shards, n - 1, at);
      assert shards[n - 1] in shards;
      ShardRecordsBounded(s, shards[n - 1], at);
      ProductStep(s.keys.cap, n);
    }
  }

  /** The cap check load makes: a full table never exceeds it. */
  lemma CapHolds(maxKeys: nat, shards: nat)
    requires 1 <= shards
    ensures Product(ShardCap(maxKeys, shards), shards) <= maxKeys + shards
  {
    var n := maxKeys + shards - 1;
    assert n == shards * (n / shards) + n % shards;
  }

  // ----- restoring -----

  /** The time an age stands for, computed in 64 bits. */
  function TimeOf(age: int, at: int): int {
    Wrap64(at - age * NANOS_PER_MILLI)
  }

  function EntryOf(r: Record, at: int): Entry {
    Entry(r.hist, TimeOf(r.age, at), TimeOf(r.age, at), r.tier)
  }

  /** The clock reaches back that far. */
  predicate AgeFits(age: int, at: int) {
    Fits64(at - age * NANOS_PER_MILLI)
  }

  /** A restored time is the true one if and only if the clock reaches back that far; every age up to
      9223372036854 ms does on a clock that does not start below zero. */
  lemma TimeExact(age: int, at: int)
    ensures TimeOf(age, at) == at - age * NANOS_PER_MILLI <==> AgeFits(age, at)
    ensures 0 <= age <= 9223372036854 && 0 <= at && Fits64(at) ==> AgeFits(age, at)
  {
    WrapExact(at - age * NANOS_PER_MILLI);
  }

  function Cleared(shards: seq<Shard>): (t: seq<Shard>)
    ensures |t| == |shards|
    ensures forall i :: 0 <= i < |t| ==> t[i] == shards[i].(keys := map[], recency := [])
  {
    seq(|shards|, i requires 0 <= i < |shards| => shards[i].(keys := map[], recency := []))
  }

  /** Put one record back, unless its shard is full or already has the key. */
  function RestoreOne(s: Setup, shards: seq<Shard>, r: Record, at: int): (t: seq<Shard>)
    requires 1 <= s.format.shards == |shards|
    ensures |t| == |shards|
  {
    var i := s.Home(r.key);
    if |shards[i].keys| >= s.keys.cap || r.key in shards[i].keys then shards
    else shards[i := Insert(shards[i], r.key, EntryOf(r, at))]
  }

  function Restored(s: Setup, shards: seq<Shard>, rs: seq<Record>, at: int): (t: seq<Shard>)
    requires 1 <= s.format.shards == |shards|
    ensures |t| == |shards|
  {
    if rs == [] then shards
    else RestoreOne(s, Restored(s, shards, rs[..|rs| - 1], at), rs[|rs| - 1], at)
  }

  function Applied(s: Setup, p: State, i: Image, at: int): State
    requires s.Valid() && |p.shards| == s.format.shards
  {
    State(Restored(s, Cleared(p.shards), s.sort(i.records), at),
          B.Reloaded(s.rule.levels, p.global, i.global, i.observations, i.boundaries))
  }

  /** Loading bytes: the state is replaced when they are accepted and untouched when they are not. */
  function Loaded(s: Setup, p: State, data: seq<Byte>, context: seq<Byte>, at: int): State
    requires s.Valid() && |p.shards| == s.format.shards
  {
    match Parse(s.format, data, context)
    case Fail(_) => p
    case Done(i, _) => Applied(s, p, i, at)
  }

  // ----- any accepted snapshot gives a well-formed table -----

  ghost predicate AllOrdered(shards: seq<Shard>) {
    forall shard :: shard in shards ==> InOrder(shard)
  }

  ghost predicate AllNoLater(shards: seq<Shard>, at: int) {
    forall shard :: shard in shards ==> NoLaterThan(shard, at)
  }

  ghost predicate AllEmpty(shards: seq<Shard>) {
    forall shard :: shard in shards ==> shard.keys == map[]
  }

  lemma RestoreOneHoused(s: Setup, shards: seq<Shard>, r: Record, at: int)
    requires 1 <= s.format.shards && AllHoused(s, shards) && UsableKey(r.key)
    ensures AllHoused(s, RestoreOne(s, shards, r, at))
  {
    var i := s.Home(r.key);
    var t := RestoreOne(s, shards, r, at);
    assert Housed(s, i, shards[i]);
    assert Housed(s, i, t[i]);
  }

  lemma RestoreOneSound(s: Setup, shards: seq<Shard>, r: Record, at: int)
    requires s.Basic() && |shards| == s.format.shards && AllSound(s.keys, shards) && RecordOk(s.format, r)
    ensures AllSound(s.keys, RestoreOne(s, shards, r, at))
  {
    var i := s.Home(r.key);
    assert shards[i] in shards;
    if !(|shards[i].keys| >= s.keys.cap || r.key in shards[i].keys) {
      InsertSound(s.keys, shards[i], r.key, EntryOf(r, at));
    }
  }

  lemma {:induction false} RestoredOk(s: Setup, shards: seq<Shard>, rs: seq<Record>, at: int)
    requires s.Basic() && AllHoused(s, shards) && AllSound(s.keys, shards) && AllOk(s.format, rs)
    ensures AllHoused(s, Restored(s, shards, rs, at)) && AllSound(s.keys, Restored(s, shards, rs, at))
  {
    if rs != [] {
      var front, last := rs[..|rs| - 1], rs[|rs| - 1];
      RestoredOk(s, shards, front, at);
      assert last in rs;
      RestoreOneHoused(s, Restored(s, shards, front, at), last, at);
      RestoreOneSound(s, Restored(s, shards, front, at), last, at);
    }
  }

  lemma LaterBound(shards: seq<Shard>, a: int, b: int)
    requires AllNoLater(shards, a) && a <= b
    ensures AllNoLater(shards, b)
  {
  }

  lemma ClearedOk(s: Setup, shards: seq<Shard>)
    requires s.Basic() && |shards| == s.format.shards
    ensures AllHoused(s, Cleared(shards)) && AllSound(s.keys, Cleared(shards)) && AllOrdered(Cleared(shards))
  {
    forall shard | shard in Cleared(shards)
      ensures Sound(s.keys, shard)
    {
      assert |shard.keys| == 0;
    }
  }

  lemma SortedOk(s: Setup, rs: seq<Record>)
    requires s.Valid() && AllOk(s.format, rs)
    ensures AllOk(s.format, s.sort(rs)) && Descending(s.sort(rs))
  {
    assert multiset(s.sort(rs)) == multiset(rs);
    forall r | r in s.sort(rs)
      ensures r in rs
    {
      assert r in multiset(s.sort(rs));
    }
  }

  lemma AppliedOk(s: Setup, p: State, i: Image, at: int)
    requires s.Valid() && |p.shards| == s.format.shards && Restorable(s.format, i)
    ensures AllHoused(s, Applied(s, p, i, at).shards) && AllSound(s.keys, Applied(s, p, i, at).shards)
    ensures AllOrdered(Applied(s, p, i, at).shards) <==> Chronological(s, s.sort(i.records), at)
  {
    ClearedOk(s, p.shards);
    SortedOk(s, i.records);
    RestoredOk(s, Cleared(p.shards), s.sort(i.records), at);
    OrderedExactly(s, Cleared(p.shards), s.sort(i.records), at);
  }

  lemma GlobalOk(s: Setup, g: B.Global, i: Image)
    requires s.Basic() && B.Steady(s.rule, g) && Restorable(s.format, i)
    ensures B.Steady(s.rule, B.Reloaded(s.rule.levels, g, i.global, i.observations, i.boundaries))
  {
  }

  lemma LoadKeeps(s: Setup, p: State, data: seq<Byte>, context: seq<Byte>, at: int)
    requires s.Valid() && Inv(s, p)
    ensures Inv(s, Loaded(s, p, data, context, at))
  {
    LoadKeepsInvariant(s, p, data, context, at);
  }

  /** Whatever bytes a loader accepts, the state afterwards is well formed: every recency list is a
      permutation of its keys within the cap, every histogram is acceptable and every boundary set
      usable. The lists are ordered by activity if and only if the restored times are in the order of
      the ages. Bytes it rejects change nothing. */
  lemma LoadKeepsInvariant(s: Setup, p: State, data: seq<Byte>, context: seq<Byte>, at: int)
    requires s.Valid() && Inv(s, p)
    ensures Inv(s, Loaded(s, p, data, context, at))
    ensures Parse(s.format, data, context).Fail? ==> Loaded(s, p, data, context, at) == p
    ensures var r := Parse(s.format, data, context);
            r.Done? ==>
              (AllOrdered(Loaded(s, p, data, context, at).shards) <==> Chronological(s, s.sort(r.value.records), at))
  {
    AcceptedIsRestorable(s.format, data, context);
    var r := Parse(s.format, data, context);
    if r.Done? {
      AppliedOk(s, p, r.value, at);
      GlobalOk(s, p.global, r.value);
    }
  }

  // ----- the order of restored keys -----

  /** The key of record n comes back with it: the first of its key, with room left in its shard. */
  ghost predicate Returns(s: Setup, rs: seq<Record>, n: nat)
    requires 1 <= s.format.shards && n < |rs|
  {
    && (forall m :: 0 <= m < n ==> rs[m].key != rs[n].key)
    && |Among(s, rs, n, s.Home(rs[n].key))| < s.keys.cap
  }

  ghost predicate ReturnsTo(s: Setup, rs: seq<Record>, n: nat, i: nat)
    requires 1 <= s.format.shards && n < |rs|
  {
    s.Home(rs[n].key) == i && Returns(s, rs, n)
  }

  /** The records, of the first n, that come back to shard i. */
  ghost function Coming(s: Setup, rs: seq<Record>, n: nat, i: nat): (ms: set<nat>)
    requires 1 <= s.format.shards && n <= |rs|
    ensures forall m: nat :: m in ms <==> m < n && ReturnsTo(s, rs, m, i)
  {
    set m: nat | m < n && ReturnsTo(s, rs, m, i)
  }

  /** Times are in the order of the records. */
  ghost predicate InTimeOrder(rs: seq<Record>, ms: set<nat>, at: int)
    requires forall m :: m in ms ==> m < |rs|
  {
    forall k, m :: k in ms && m in ms && k < m ==> TimeOf(rs[k].age, at) <= TimeOf(rs[m].age, at)
  }

  ghost predicate Chronological(s: Setup, rs: seq<Record>, at: int)
    requires 1 <= s.format.shards
  {
    forall i :: 0 <= i < s.format.shards ==> InTimeOrder(rs, Coming(s, rs, |rs|, i), at)
  }

  ghost predicate AgesFit(rs: seq<Record>, at: int) {
    forall r :: r in rs ==> AgeFits(r.age, at)
  }

  lemma {:induction false} DescendingPair(rs: seq<Record>, k: nat, m: nat)
    requires Descending(rs) && k < m < |rs|
    ensures rs[m].age <= rs[k].age
  {
    var n := |rs| - 1;
    if m == n {
      assert rs[k] in rs;
    } else {
      DescendingPair(rs[..n], k, m);
    }
  }

  /** Ages the clock reaches back to are restored in order. */
  lemma {:induction false} FittingAgesInOrder(s: Setup, rs: seq<Record>, at: int)
    requires 1 <= s.format.shards && Descending(rs) && AgesFit(rs, at)
    ensures Chronological(s, rs, at)
  {
    forall k, m | 0 <= k < m < |rs|
      ensures TimeOf(rs[k].age, at) <= TimeOf(rs[m].age, at)
    {
      DescendingPair(rs, k, m);
      assert rs[k] in rs && rs[m] in rs;
      TimeExact(rs[k].age, at);
      TimeExact(rs[m].age, at);
    }
  }

  /** A new key at the front keeps the list ordered exactly when no other key is later. */
  lemma InsertOrder(shard: Shard, k: Key, e: Entry)
    requires Listed(shard) && k !in shard.keys
    ensures InOrder(Insert(shard, k, e)) <==> InOrder(shard) && NoLaterThan(shard, e.lastActivity)
  {
    var t := Insert(shard, k, e);
    assert t.recency[0] == k && t.recency[1..] == shard.recency;
    assert forall x :: x in t.recency <==> x == k || x in shard.recency;
    OrderedFrame(shard.keys, t.keys, shard.recency);
    if InOrder(t) {
      forall x | x in shard.keys
        ensures shard.keys[x].lastActivity <= e.lastActivity
      {
        assert x in t.recency && t.keys[x] == shard.keys[x];
      }
    }
  }

  /** A shard holds exactly the keys of these records, with their entries. */
  ghost predicate Holds(shard: Shard, rs: seq<Record>, ms: set<nat>, at: int)
    requires forall m :: m in ms ==> m < |rs|
  {
    && Listed(shard)
    && (forall m :: m in ms ==> rs[m].key in shard.keys && shard.keys[rs[m].key] == EntryOf(rs[m], at))
    && (forall x :: x in shard.keys ==> exists m :: m in ms && rs[m].key == x)
  }

  /** A record is put into its shard exactly when its key comes back with it. */
  lemma PutBackExactly(s: Setup, shards: seq<Shard>, rs: seq<Record>, n: nat, at: int, i: nat)
    requires s.Basic() && s.format.shards == |shards| && AllEmpty(shards) && n < |rs| && i == s.Home(rs[n].key)
    requires Holds(RestoredTo(s, shards, rs, n, at)[i], rs, Coming(s, rs, n, i), at)
    ensures var t := RestoredTo(s, shards, rs, n, at)[i];
            (|t.keys| >= s.keys.cap || rs[n].key in t.keys) <==> !ReturnsTo(s, rs, n, i)
  {
    var t := RestoredTo(s, shards, rs, n, at)[i];
    RestoredFills(s, shards, rs, n, at, i);
    FilledCount(s.keys, t, Among(s, rs, n, i));
    if rs[n].key !in t.keys && |t.keys| < s.keys.cap {
      assert t.keys.Keys == Among(s, rs, n, i);
    }
  }

  lemma HoldsOne(shard: Shard, rs: seq<Record>, ms: set<nat>, n: nat, at: int)
    requires n < |rs| && (forall m :: m in ms ==> m < n) && Holds(shard, rs, ms, at) && rs[n].key !in shard.keys
    ensures Holds(Insert(shard, rs[n].key, EntryOf(rs[n], at)), rs, ms + {n}, at)
  {
    var t := Insert(shard, rs[n].key, EntryOf(rs[n], at));
    InsertListed(shard, rs[n].key, EntryOf(rs[n], at));
    forall x | x in t.keys
      ensures exists m :: m in ms + {n} && rs[m].key == x
    {
      if x == rs[n].key {
        assert n in ms + {n};
      } else {
        var m :| m in ms && rs[m].key == x;
        assert m in ms + {n};
      }
    }
  }

  lemma OrderedOne(shard: Shard, rs: seq<Record>, ms: set<nat>, n: nat, at: int)
    requires n < |rs| && (forall m :: m in ms ==> m < n) && Holds(shard, rs, ms, at) && rs[n].key !in shard.keys
    requires InOrder(shard) <==> InTimeOrder(rs, ms, at)
    ensures InOrder(Insert(shard, rs[n].key, EntryOf(rs[n], at))) <==> InTimeOrder(rs, ms + {n}, at)
  {
    InsertOrder(shard, rs[n].key, EntryOf(rs[n], at));
    if InTimeOrder(rs, ms + {n}, at) {
      forall x | x in shard.keys
        ensures shard.keys[x].lastActivity <= TimeOf(rs[n].age, at)
      {
        var m :| m in ms && rs[m].key == x;
        assert m in ms + {n} && n in ms + {n};
      }
    }
  }

  lemma ComingMore(s: Setup, rs: seq<Record>, n: nat, i: nat)
    requires 1 <= s.format.shards && n < |rs|
    ensures Coming(s, rs, n + 1, i) == Coming(s, rs, n, i) + if ReturnsTo(s, rs, n, i) then {n} else {}
  {
  }

  /** A shard that holds exactly these records and is ordered exactly when their times are. */
  ghost predicate Exact(shard: Shard, rs: seq<Record>, ms: set<nat>, at: int)
    requires forall m :: m in ms ==> m < |rs|
  {
    Holds(shard, rs, ms, at) && (InOrder(shard) <==> InTimeOrder(rs, ms, at))
  }

  lemma ExactEmpty(shard: Shard, rs: seq<Record>, at: int)
    requires shard.keys == map[] && shard.recency == []
    ensures Exact(shard, rs, {}, at)
  {
  }

  /** The step for a record that comes back. */
  lemma ExactOne(s: Setup, shards: seq<Shard>, rs: seq<Record>, n: nat, at: int, i: nat)
    requires s.Basic() && s.format.shards == |shards| && AllEmpty(shards) && n < |rs| && i < |shards|
    requires Exact(RestoredTo(s, shards, rs, n, at)[i], rs, Coming(s, rs, n, i), at) && ReturnsTo(s, rs, n, i)
    ensures Exact(RestoredTo(s, shards, rs, n + 1, at)[i], rs, Coming(s, rs, n, i) + {n}, at)
  {
    RestoredNext(s, shards, rs, n, at);
    PutBackExactly(s, shards, rs, n, at, i);
    HoldsOne(RestoredTo(s, shards, rs, n, at)[i], rs, Coming(s, rs, n, i), n, at);
    OrderedOne(RestoredTo(s, shards, rs, n, at)[i], rs, Coming(s, rs, n, i), n, at);
  }

  lemma NotPutBack(s: Setup, shards: seq<Shard>, rs: seq<Record>, n: nat, at: int, i: nat)
    requires s.Basic() && s.format.shards == |shards| && AllEmpty(shards) && n < |rs| && i < |shards|
    requires Holds(RestoredTo(s, shards, rs, n, at)[i], rs, Coming(s, rs, n, i), at) && !ReturnsTo(s, rs, n, i)
    ensures RestoredTo(s, shards, rs, n + 1, at)[i] == RestoredTo(s, shards, rs, n, at)[i]
  {
    RestoredNext(s, shards, rs, n, at);
    if s.Home(rs[n].key) == i {
      PutBackExactly(s, shards, rs, n, at, i);
    }
  }

  lemma {:induction false} ShardOrderedExactly(s: Setup, shards: seq<Shard>, rs: seq<Record>, n: nat, at: int, i: nat)
    requires s.Basic() && s.format.shards == |shards| && AllEmpty(shards) && n <= |rs| && i < |shards|
    requires forall shard :: shard in shards ==> shard.recency == []
    ensures Exact(RestoredTo(s, shards, rs, n, at)[i], rs, Coming(s, rs, n, i), at)
  {
    if n == 0 {
      assert shards[i] in shards;
      ExactEmpty(shards[i], rs, at);
      assert Coming(s, rs, 0, i) == {};
    } else {
      ShardOrderedExactly(s, shards, rs, n - 1, at, i);
      ExactNext(s, shards, rs, n - 1, at, i);
    }
  }

  lemma ExactNext(s: Setup, shards: seq<Shard>, rs: seq<Record>, n: nat, at: int, i: nat)
    requires s.Basic() && s.format.shards == |shards| && AllEmpty(shards) && n < |rs| && i < |shards|
    requires Exact(RestoredTo(s, shards, rs, n, at)[i], rs, Coming(s, rs, n, i), at)
    ensures Exact(RestoredTo(s, shards, rs, n + 1, at)[i], rs, Coming(s, rs, n + 1, i), at)
  {
    ComingMore(s, rs, n, i);
    if ReturnsTo(s, rs, n, i) {
      ExactOne(s, shards, rs, n, at, i);
    } else {
      NotPutBack(s, shards, rs, n, at, i);
    }
  }

  /** Restoring leaves every list ordered by activity if and only if the times of the records that
      come back are in order. */
  lemma {:induction false} OrderedExactly(s: Setup, shards: seq<Shard>, rs: seq<Record>, at: int)
    requires s.Basic() && s.format.shards == |shards| && AllEmpty(shards)
    requires forall shard :: shard in shards ==> shard.recency == []
    ensures AllOrdered(Restored(s, shards, rs, at)) <==> Chronological(s, rs, at)
  {
    var t := Restored(s, shards, rs, at);
    assert rs[..|rs|] == rs;
    forall i | 0 <= i < |shards|
      ensures InOrder(t[i]) <==> InTimeOrder(rs, Coming(s, rs, |rs|, i), at)
    {
      ShardOrderedExactly(s, shards, rs, |rs|, at, i);
    }
    assert AllOrdered(t) <==> forall i :: 0 <= i < |t| ==> InOrder(t[i]);
  }

  /** No restored time is after the load when the clock reaches back to every age. */
  lemma {:induction false} RestoredNoLater(s: Setup, shards: seq<Shard>, rs: seq<Record>, at: int)
    requires 1 <= s.format.shards == |shards| && AllEmpty(shards) && AgesFit(rs, at)
    requires forall r :: r in rs ==> 0 <= r.age
    ensures AllNoLater(Restored(s, shards, rs, at), at)
  {
    if rs != [] {
      var front, last := rs[..|rs| - 1], rs[|rs| - 1];
      assert last in rs;
      RestoredNoLater(s, shards, front, at);
      TimeExact(last.age, at);
      RestoreOneNoLater(s, Restored(s, shards, front, at), last, at);
    }
  }

  lemma RestoreOneNoLater(s: Setup, shards: seq<Shard>, r: Record, at: int)
    requires 1 <= s.format.shards == |shards| && AllNoLater(shards, at) && TimeOf(r.age, at) <= at
    ensures AllNoLater(RestoreOne(s, shards, r, at), at)
  {
    assert shards[s.Home(r.key)] in shards;
  }

  // ----- how many keys are tracked -----

  function Population(shards: seq<Shard>): nat {
    if shards == [] then 0 else Population(shards[..|shards| - 1]) + |shards[|shards| - 1].keys|
  }

  lemma {:induction false} PopulationUpdate(shards: seq<Shard>, i: nat, shard: Shard)
    requires i < |shards|
    ensures Population(shards[i := shard]) == Population(shards) - |shards[i].keys| + |shard.keys|
  {
    var n := |shards| - 1;
    if i == n {
      assert shards[i := shard][..n] == shards[..n];
    } else {
      PopulationUpdate(shards[..n], i, shard);
      assert shards[i := shard][..n] == shards[..n][i := shard];
    }
  }

  lemma {:induction false} EmptyPopulation(shards: seq<Shard>)
    requires AllEmpty(shards)
    ensures Population(shards) == 0
  {
    if shards != [] {
      assert shards[|shards| - 1] in shards;
      EmptyPopulation(shards[..|shards| - 1]);
    }
  }

  /** A record put back is one key more. */
  lemma {:induction false} PopulationRestored(s: Setup, shards: seq<Shard>, r: Record, at: int)
    requires 1 <= s.format.shards == |shards|
    ensures var shard := shards[s.Home(r.key)];
            Population(RestoreOne(s, shards, r, at)) ==
              Population(shards) + if |shard.keys| >= s.keys.cap || r.key in shard.keys then 0 else 1
  {
    var i := s.Home(r.key);
    if !(|shards[i].keys| >= s.keys.cap || r.key in shards[i].keys) {
      PopulationUpdate(shards, i, Insert(shards[i], r.key, EntryOf(r, at)));
      WithKey(shards[i].keys, r.key, EntryOf(r, at));
    }
  }

  // ----- records beyond a shard's cap -----

  /** The keys of shard `i` among the first n records. */
  ghost function Among(s: Setup, rs: seq<Record>, n: nat, i: nat): set<Key>
    requires 1 <= s.format.shards && n <= |rs|
  {
    set m | 0 <= m < n && s.Home(rs[m].key) == i :: rs[m].key
  }

  lemma AmongGrows(s: Setup, rs: seq<Record>, n: nat, i: nat)
    requires 1 <= s.format.shards && n < |rs|
    ensures Among(s, rs, n + 1, i) == Among(s, rs, n, i) + if s.Home(rs[n].key) == i then {rs[n].key} else {}
  {
  }

  /** The first n records put back. */
  function RestoredTo(s: Setup, shards: seq<Shard>, rs: seq<Record>, n: nat, at: int): (t: seq<Shard>)
    requires 1 <= s.format.shards == |shards| && n <= |rs|
    ensures |t| == |shards|
  {
    Restored(s, shards, rs[..n], at)
  }

  lemma RestoredNext(s: Setup, shards: seq<Shard>, rs: seq<Record>, n: nat, at: int)
    requires 1 <= s.format.shards == |shards| && n < |rs|
    ensures RestoredTo(s, shards, rs, n + 1, at) == RestoreOne(s, RestoredTo(s, shards, rs, n, at), rs[n], at)
  {
    assert rs[..n + 1][..n] == rs[..n];
  }

  /** A shard holds all the keys it was given while they fit, and is full once they do not. */
  ghost predicate Filled(c: Config, shard: Shard, given: set<Key>) {
    && shard.keys.Keys <= given && |shard.keys| <= c.cap
    && (shard.keys.Keys == given || |shard.keys| == c.cap)
  }

  lemma FilledStep(c: Config, shard: Shard, given: set<Key>, r: Record, at: int)
    requires Filled(c, shard, given)
    ensures |shard.keys| >= c.cap || r.key in shard.keys ==> Filled(c, shard, given + {r.key})
    ensures !(|shard.keys| >= c.cap || r.key in shard.keys) ==>
              Filled(c, Insert(shard, r.key, EntryOf(r, at)), given + {r.key})
  {
    if !(|shard.keys| >= c.cap || r.key in shard.keys) {
      WithKey(shard.keys, r.key, EntryOf(r, at));
    }
  }

  lemma {:induction false} RestoredFills(s: Setup, shards: seq<Shard>, rs: seq<Record>, n: nat, at: int, i: nat)
    requires 1 <= s.format.shards == |shards| && AllEmpty(shards) && n <= |rs| && i < |shards|
    ensures Filled(s.keys, RestoredTo(s, shards, rs, n, at)[i], Among(s, rs, n, i))
  {
    if n == 0 {
      assert shards[i] in shards;
    } else {
      RestoredFills(s, shards, rs, n - 1, at, i);
      RestoredNext(s, shards, rs, n - 1, at);
      AmongGrows(s, rs, n - 1, i);
      FilledStep(s.keys, RestoredTo(s, shards, rs, n - 1, at)[i], Among(s, rs, n - 1, i), rs[n - 1], at);
    }
  }

  /** Later records never displace a key that is back. */
  lemma {:induction false} RestoredStays(s: Setup, shards: seq<Shard>, rs: seq<Record>, n: nat, m: nat, at: int, i: nat,
                                         k: Key)
    requires 1 <= s.format.shards == |shards| && n <= m <= |rs| && i < |shards|
    ensures var t, u := RestoredTo(s, shards, rs, n, at)[i], RestoredTo(s, shards, rs, m, at)[i];
            && (k in t.keys ==> k in u.keys && u.keys[k] == t.keys[k])
            && (|t.keys| >= s.keys.cap ==> u == t)
    decreases m
  {
    if n < m {
      RestoredStays(s, shards, rs, n, m - 1, at, i, k);
      RestoredNext(s, shards, rs, m - 1, at);
    }
  }

  /** Exactly which keys a load restores: a key comes back, with its first record, if and only if
      fewer than `cap` other keys of its shard come before that record. */
  lemma {:induction false} RestoredExactly(s: Setup, shards: seq<Shard>, rs: seq<Record>, n: nat, at: int)
    requires s.Basic() && s.format.shards == |shards| && AllEmpty(shards)
    requires n < |rs| && forall m :: 0 <= m < n ==> rs[m].key != rs[n].key
    ensures var k, i := rs[n].key, s.Home(rs[n].key);
            var t := Restored(s, shards, rs, at)[i];
            && (k in t.keys <==> |Among(s, rs, n, i)| < s.keys.cap)
            && (k in t.keys ==> t.keys[k] == EntryOf(rs[n], at))
  {
    var k, i := rs[n].key, s.Home(rs[n].key);
    var t := RestoredTo(s, shards, rs, n, at)[i];
    RestoredFills(s, shards, rs, n, at, i);
    RestoredNext(s, shards, rs, n, at);
    RestoredStays(s, shards, rs, n, |rs|, at, i, k);
    RestoredStays(s, shards, rs, n + 1, |rs|, at, i, k);
    assert rs[..|rs|] == rs;
    assert k !in Among(s, rs, n, i);
    FilledCount(s.keys, t, Among(s, rs, n, i));
  }

  lemma FilledCount(c: Config, shard: Shard, given: set<Key>)
    requires Filled(c, shard, given)
    ensures |shard.keys| < c.cap <==> |given| < c.cap
  {
    SubsetSize(shard.keys.Keys, given);
    assert |shard.keys| == |shard.keys.Keys|;
  }

  lemma FirstOf(rs: seq<Record>, k: Key, n: nat) returns (m: nat)
    requires n < |rs| && rs[n].key == k
    ensures m <= n && rs[m].key == k && forall j :: 0 <= j < m ==> rs[j].key != k
  {
    m := 0;
    while rs[m].key != k
      invariant m <= n && forall j :: 0 <= j < m ==> rs[j].key != k
      decreases n - m
    {
      m := m + 1;
    }
  }

  lemma AmongMonotone(s: Setup, rs: seq<Record>, n: nat, m: nat, i: nat)
    requires 1 <= s.format.shards && n <= m <= |rs|
    ensures |Among(s, rs, n, i)| <= |Among(s, rs, m, i)|
  {
    SubsetSize(Among(s, rs, n, i), Among(s, rs, m, i));
  }

  /** A key left out had as many keys of its shard before its first record as the shard holds. */
  lemma LeftOut(s: Setup, shards: seq<Shard>, rs: seq<Record>, at: int, n: nat) returns (first: nat)
    requires s.Basic() && s.format.shards == |shards| && AllEmpty(shards)
    requires n < |rs| && rs[n].key !in Restored(s, shards, rs, at)[s.Home(rs[n].key)].keys
    ensures first <= n && |Among(s, rs, first, s.Home(rs[n].key))| >= s.keys.cap
    ensures |Restored(s, shards, rs, at)[s.Home(rs[n].key)].keys| == s.keys.cap
  {
    var i := s.Home(rs[n].key);
    first := FirstOf(rs, rs[n].key, n);
    RestoredExactly(s, shards, rs, first, at);
    RestoredFills(s, shards, rs, |rs|, at, i);
    assert rs[..|rs|] == rs;
    AmongMonotone(s, rs, first, |rs|, i);
    FilledCount(s.keys, Restored(s, shards, rs, at)[i], Among(s, rs, |rs|, i));
  }

  /** Keys that come back do so before a shard has all the keys it holds. */
  lemma {:induction false} ReturnsBefore(s: Setup, rs: seq<Record>, first: nat, n: nat, m: nat, i: nat)
    requires 1 <= s.format.shards && Descending(rs) && first <= n < |rs| && m < |rs|
    requires |Among(s, rs, first, i)| >= s.keys.cap && ReturnsTo(s, rs, m, i)
    ensures rs[n].age <= rs[m].age
  {
    if first <= m {
      AmongMonotone(s, rs, first, m, i);
      assert false;
    }
    DescendingPair(rs, m, n);
  }

  /** A shard too small for its records keeps the oldest of them: whatever is left out found its shard
      full, and each key there came back with a record that is no younger. */
  lemma OverflowKeepsOldest(s: Setup, shards: seq<Shard>, rs: seq<Record>, at: int, n: nat, x: Key) returns (r: Record)
    requires s.Basic() && s.format.shards == |shards| && AllEmpty(shards) && Descending(rs)
    requires forall shard :: shard in shards ==> shard.recency == []
    requires n < |rs| && rs[n].key !in Restored(s, shards, rs, at)[s.Home(rs[n].key)].keys
    requires x in Restored(s, shards, rs, at)[s.Home(rs[n].key)].keys
    ensures var t := Restored(s, shards, rs, at)[s.Home(rs[n].key)];
            && |t.keys| == s.keys.cap
            && r in rs && r.key == x && rs[n].age <= r.age && t.keys[x] == EntryOf(r, at)
  {
    var i := s.Home(rs[n].key);
    var first := LeftOut(s, shards, rs, at, n);
    var m := CameBack(s, shards, rs, at, i, x);
    ReturnsBefore(s, rs, first, n, m, i);
    r := rs[m];
  }

  lemma CameBack(s: Setup, shards: seq<Shard>, rs: seq<Record>, at: int, i: nat, x: Key) returns (m: nat)
    requires s.Basic() && s.format.shards == |shards| && AllEmpty(shards) && i < |shards|
    requires forall shard :: shard in shards ==> shard.recency == []
    requires x in Restored(s, shards, rs, at)[i].keys
    ensures m < |rs| && ReturnsTo(s, rs, m, i) && rs[m].key == x
    ensures Restored(s, shards, rs, at)[i].keys[x] == EntryOf(rs[m], at)
  {
    assert rs[..|rs|] == rs;
    ShardOrderedExactly(s, shards, rs, |rs|, at, i);
    m :| m in Coming(s, rs, |rs|, i) && rs[m].key == x;
  }

  lemma SortedPair(s: Setup, a: Record, b: Record)
    requires s.Valid() && b.age < a.age
    ensures s.sort([b, a]) == [a, b]
  {
    var rs := s.sort([b, a]);
    assert multiset(rs) == multiset([b, a]) == multiset{a, b};
    assert |rs| == |multiset(rs)| == 2;
    assert rs == [rs[0], rs[1]] && rs[..1] == [rs[0]];
    assert multiset(rs) == multiset{rs[0], rs[1]};
    assert rs[0] in multiset{a, b} && rs[1] in multiset{a, b};
    assert rs[0] in rs && rs[1].age <= rs[0].age;
  }

  /** A file with two keys of one shard. */
  ghost predicate TwoKeys(s: Setup, i: Image, context: seq<Byte>, a: Record, b: Record)
    requires s.Valid()
  {
    && i.records == [b, a] && a.key != b.key && b.age < a.age && s.Home(a.key) == s.Home(b.key)
    && Storable(s.format, i) && |context| <= MAX_CONTEXT && |Serialize(s.format, context, i)| <= MAX_BYTES
  }

  lemma PairAmong(s: Setup, rs: seq<Record>, a: Record, b: Record)
    requires 1 <= s.format.shards && rs == [a, b] && a.key != b.key && s.Home(a.key) == s.Home(b.key)
    ensures |Among(s, rs, 0, s.Home(a.key))| == 0 && |Among(s, rs, 1, s.Home(a.key))| == 1
  {
    assert Among(s, rs, 0, s.Home(a.key)) == {};
    AmongGrows(s, rs, 0, s.Home(a.key));
  }

  lemma {:induction false} PairRestored(s: Setup, shards: seq<Shard>, rs: seq<Record>, at: int, a: Record, b: Record)
    requires s.Basic() && s.format.shards == |shards| && AllEmpty(shards) && s.keys.cap == 1
    requires rs == [a, b] && a.key != b.key && s.Home(a.key) == s.Home(b.key)
    ensures var t := Restored(s, shards, rs, at)[s.Home(a.key)];
            a.key in t.keys && b.key !in t.keys && t.keys[a.key] == EntryOf(a, at)
  {
    PairAmong(s, rs, a, b);
    RestoredExactly(s, shards, rs, 0, at);
    RestoredExactly(s, shards, rs, 1, at);
  }

  lemma {:induction false} LoadedPair(s: Setup, p: State, i: Image, context: seq<Byte>, at: int, a: Record, b: Record)
    requires s.Valid() && Inv(s, p) && TwoKeys(s, i, context, a, b)
    ensures var data := Serialize(s.format, context, i);
            && Parse(s.format, data, context).Done? && Parse(s.format, data, context).value == i
            && Loaded(s, p, data, context, at).shards == Restored(s, Cleared(p.shards), [a, b], at)
    ensures s.sort(i.records) == [a, b]
  {
    RoundTrip(s.format, context, i);
    SortedPair(s, a, b);
  }

  /** A load does keep an older key and drop a younger one: a shard with room for one key. */
  lemma YoungerIsDropped(s: Setup, p: State, i: Image, context: seq<Byte>, at: int, a: Record, b: Record)
    requires s.Valid() && Inv(s, p) && TwoKeys(s, i, context, a, b) && s.keys.cap == 1
    ensures var t := Loaded(s, p, Serialize(s.format, context, i), context, at).shards[s.Home(a.key)];
            a.key in t.keys && b.key !in t.keys && t.keys[a.key] == EntryOf(a, at)
  {
    LoadedPair(s, p, i, context, at, a, b);
    PairRestored(s, Cleared(p.shards), [a, b], at, a, b);
  }

  lemma OldTime(at: int)
    requires 0 <= at && Fits64(at)
    ensures TimeOf(18446744073710, at) == at - 448384 && TimeOf(1000, at) == at - 1_000_000_000
  {
    WrapShift(at - 448384, -1);
    SignedUnsigned(at - 448384);
    TimeExact(1000, at);
  }

  lemma PairOutOfOrder(s: Setup, rs: seq<Record>, at: int, a: Record, b: Record)
    requires 1 <= s.format.shards && rs == [a, b] && a.key != b.key && s.Home(a.key) == s.Home(b.key)
    requires 2 <= s.keys.cap && TimeOf(b.age, at) < TimeOf(a.age, at)
    ensures !Chronological(s, rs, at)
  {
    PairAmong(s, rs, a, b);
    var home := s.Home(a.key);
    assert ReturnsTo(s, rs, 0, home) && ReturnsTo(s, rs, 1, home);
    assert 0 in Coming(s, rs, 2, home) && 1 in Coming(s, rs, 2, home);
    assert !InTimeOrder(rs, Coming(s, rs, |rs|, home), at);
  }

  /** An age the clock does not reach back to does break the order: of two keys the one 18446744073710 ms
      old is restored as the later, because that age is 448384 ns more than 64 bits hold. */
  lemma OldAgeBreaksOrder(s: Setup, p: State, i: Image, context: seq<Byte>, at: int, a: Record, b: Record)
    requires s.Valid() && Inv(s, p) && TwoKeys(s, i, context, a, b) && 2 <= s.keys.cap && 0 <= at && Fits64(at)
    requires a.age == 18446744073710 && b.age == 1000
    ensures var data := Serialize(s.format, context, i);
            && Parse(s.format, data, context).Done?
            && !AllOrdered(Loaded(s, p, data, context, at).shards)
  {
    LoadedPair(s, p, i, context, at, a, b);
    OldTime(at);
    PairOutOfOrder(s, [a, b], at, a, b);
    LoadKeepsInvariant(s, p, Serialize(s.format, context, i), context, at);
  }

  // ----- save then load -----

  lemma UniqueRecord(rs: seq<Record>)
    requires NoDuplicates(rs) && rs != []
    ensures rs[|rs| - 1] !in rs[..|rs| - 1]
    ensures NoDuplicates(rs[..|rs| - 1])
    ensures rs[..|rs| - 1] + [rs[|rs| - 1]] == rs
  {
    var front, last := rs[..|rs| - 1], rs[|rs| - 1];
    assert rs == front + [last];
    forall r
      ensures multiset(front)[r] <= multiset(rs)[r]
    {
      assert multiset(rs) == multiset(front) + multiset{last};
    }
    assert multiset(rs)[last] == multiset(front)[last] + 1;
  }

  /** What a shard holds once some of the saved records are back. */
  ghost predicate BackShard(was: map<Key, Entry>, keys: map<Key, Entry>, rs: seq<Record>, saved: int, at: int) {
    && (forall k :: k in keys <==> k in was && RecordOf(k, was[k], saved) in rs)
    && (forall k :: k in keys ==> keys[k] == EntryOf(RecordOf(k, was[k], saved), at))
  }

  ghost predicate Back(was: seq<Shard>, shards: seq<Shard>, rs: seq<Record>, saved: int, at: int) {
    && |was| == |shards|
    && forall i :: 0 <= i < |shards| ==> BackShard(was[i].keys, shards[i].keys, rs, saved, at)
  }

  lemma RoomLeft(keys: map<Key, Entry>, within: map<Key, Entry>, k: Key)
    requires (forall x :: x in keys ==> x in within) && k in within && k !in keys
    ensures |keys| < |within|
  {
    assert keys.Keys <= within.Keys - {k};
    SubsetSize(keys.Keys, within.Keys - {k});
    assert |keys| == |keys.Keys| && |within| == |within.Keys|;
  }

  lemma {:induction false} SubsetSize(a: set<Key>, b: set<Key>)
    requires a <= b
    ensures |a| <= |b|
  {
    if a != {} {
      var x :| x in a;
      SubsetSize(a - {x}, b - {x});
    }
  }

  lemma OtherShardBack(was: map<Key, Entry>, keys: map<Key, Entry>, rs: seq<Record>, r: Record, saved: int, at: int)
    requires BackShard(was, keys, rs, saved, at) && r.key !in was
    ensures BackShard(was, keys, rs + [r], saved, at)
  {
  }

  lemma ThisShardBack(was: map<Key, Entry>, keys: map<Key, Entry>, rs: seq<Record>, r: Record, saved: int, at: int)
    requires BackShard(was, keys, rs, saved, at) && r !in rs
    requires r.key in was && r == RecordOf(r.key, was[r.key], saved)
    ensures r.key !in keys && |keys| < |was|
    ensures BackShard(was, keys[r.key := EntryOf(r, at)], rs + [r], saved, at)
  {
    RoomLeft(keys, was, r.key);
  }

  lemma RestoreOneBack(s: Setup, was: seq<Shard>, shards: seq<Shard>, rs: seq<Record>, r: Record, saved: int, at: int)
    requires 1 <= s.format.shards && AllHoused(s, was) && AllSound(s.keys, was) && |shards| == |was|
    requires Back(was, shards, rs, saved, at)
    requires r !in rs && Tracked(s, was, |was|, saved, r)
    ensures Back(was, RestoreOne(s, shards, r, at), rs + [r], saved, at)
  {
    var i := s.Home(r.key);
    assert was[i] in was;
    assert BackShard(was[i].keys, shards[i].keys, rs, saved, at);
    ThisShardBack(was[i].keys, shards[i].keys, rs, r, saved, at);
    var t := RestoreOne(s, shards, r, at);
    assert t == shards[i := Insert(shards[i], r.key, EntryOf(r, at))];
    forall j | 0 <= j < |t| && j != i
      ensures BackShard(was[j].keys, t[j].keys, rs + [r], saved, at)
    {
      assert Housed(s, j, was[j]);
      OtherShardBack(was[j].keys, t[j].keys, rs, r, saved, at);
    }
  }

  lemma {:induction false} RestoredBack(s: Setup, was: seq<Shard>, shards: seq<Shard>, rs: seq<Record>, saved: int,
                                        at: int)
    requires 1 <= s.format.shards && AllHoused(s, was) && AllSound(s.keys, was) && |shards| == |was|
    requires forall i :: 0 <= i < |shards| ==> shards[i].keys == map[]
    requires NoDuplicates(rs) && forall r :: r in rs ==> Tracked(s, was, |was|, saved, r)
    ensures Back(was, Restored(s, shards, rs, at), rs, saved, at)
  {
    if rs != [] {
      var front := rs[..|rs| - 1];
      UniqueRecord(rs);
      RestoredBack(s, was, shards, front, saved, at);
      RestoreOneBack(s, was, Restored(s, shards, front, at), front, rs[|rs| - 1], saved, at);
    }
  }

  /** The same keys, each with its histogram, tier and age. */
  ghost predicate SameKeys(p: State, saved: int, q: State, loaded: int) {
    && |p.shards| == |q.shards|
    && forall i :: 0 <= i < |p.shards| ==> SameShard(p.shards[i].keys, saved, q.shards[i].keys, loaded)
  }

  ghost predicate SameShard(a: map<Key, Entry>, saved: int, b: map<Key, Entry>, loaded: int) {
    && a.Keys == b.Keys
    && forall k :: k in a ==>
         && a[k].hist == b[k].hist && a[k].tier == b[k].tier
         && Age(a[k].lastActivity, saved) == Age(b[k].lastActivity, loaded)
  }

  /** The numbers of a state are doubles and its counters fit their fields, as the source's types
      have it. */
  ghost predicate Machine(s: Setup, p: State, at: int)
    requires s.Valid() && Inv(s, p)
  {
    && (forall r :: r in Saved(s, p, at).records ==> StorableHist(s.format, r.hist))
    && StorableHist(s.format, p.global.hist)
    && p.global.observations < TWO_64
    && s.format.maxKeys + s.format.shards < TWO_64
    && (p.global.snapshot.Some? ==>
          p.global.snapshot.value.sequence < TWO_64 && AllStored(s.format, p.global.snapshot.value.boundaries))
  }

  lemma SavedStorable(s: Setup, p: State, at: int)
    requires s.Valid() && Inv(s, p) && Machine(s, p, at)
    ensures Storable(s.format, Saved(s, p, at))
  {
    var n := s.format.shards;
    var rs := Records(s, p.shards, n, at);
    RecordsBounded(s, p.shards, n, at);
    CapHolds(s.format.maxKeys, n);
    forall r | r in rs
      ensures StorableRecord(s.format, r)
    {
      RecordsTracked(s, p.shards, n, at, r, rs);
      assert Housed(s, s.Home(r.key), p.shards[s.Home(r.key)]) && p.shards[s.Home(r.key)] in p.shards;
    }
  }

  lemma SavedSorted(s: Setup, p: State, at: int)
    requires s.Valid() && Inv(s, p)
    ensures var rs := s.sort(Saved(s, p, at).records);
            && NoDuplicates(rs)
            && forall r :: r in rs <==> Tracked(s, p.shards, |p.shards|, at, r)
  {
    var rs := Saved(s, p, at).records;
    assert multiset(s.sort(rs)) == multiset(rs);
    forall r
      ensures multiset(s.sort(rs))[r] <= 1
      ensures r in s.sort(rs) <==> Tracked(s, p.shards, |p.shards|, at, r)
    {
      RecordsTracked(s, p.shards, |p.shards|, at, r, rs);
      assert r in s.sort(rs) <==> r in multiset(s.sort(rs));
      assert r in rs <==> r in multiset(rs);
    }
  }

  lemma AgeRestored(last: int, saved: int, at: int)
    ensures Age(TimeOf(Age(last, saved), at), at) == Age(last, saved)
    ensures Age(last, saved) <= 9223372036854
  {
    WrapExact(saved - last);
    WrapBack(at, Age(last, saved) * NANOS_PER_MILLI);
  }

  lemma ShardIsSame(was: map<Key, Entry>, keys: map<Key, Entry>, rs: seq<Record>, saved: int, at: int)
    requires BackShard(was, keys, rs, saved, at)
    requires forall k :: k in was ==> RecordOf(k, was[k], saved) in rs
    ensures SameShard(was, saved, keys, at)
  {
    assert was.Keys == keys.Keys;
    forall k | k in was
      ensures Age(was[k].lastActivity, saved) == Age(keys[k].lastActivity, at)
    {
      AgeRestored(was[k].lastActivity, saved, at);
    }
  }

  lemma BackIsSame(s: Setup, p: State, rs: seq<Record>, q: State, saved: int, at: int)
    requires 1 <= s.format.shards && AllHoused(s, p.shards) && |q.shards| == |p.shards|
    requires forall r :: Tracked(s, p.shards, |p.shards|, saved, r) ==> r in rs
    requires Back(p.shards, q.shards, rs, saved, at)
    ensures SameKeys(p, saved, q, at)
  {
    forall i | 0 <= i < |p.shards|
      ensures SameShard(p.shards[i].keys, saved, q.shards[i].keys, at)
    {
      var was := p.shards[i].keys;
      assert Housed(s, i, p.shards[i]);
      forall k | k in was
        ensures RecordOf(k, was[k], saved) in rs
      {
        assert Tracked(s, p.shards, |p.shards|, saved, RecordOf(k, was[k], saved));
      }
      ShardIsSame(was, q.shards[i].keys, rs, saved, at);
    }
  }

  /** Save then load, into any predictor with the same configuration: the file is accepted exactly
      when it and its context label are within their limits, and then every key returns with its
      histogram, tier and age, and the global histogram, count and boundaries return too. */
  lemma SnapshotRoundTrip(s: Setup, p: State, saved: int, q: State, at: int, context: seq<Byte>)
    requires s.Valid() && Inv(s, p) && Inv(s, q) && Machine(s, p, saved)
    ensures var data := Serialize(s.format, context, Saved(s, p, saved));
            && (Parse(s.format, data, context).Done? <==> |data| <= MAX_BYTES && |context| <= MAX_CONTEXT)
            && (Parse(s.format, data, context).Done? ==>
                  var t := Loaded(s, q, data, context, at);
                  && SameKeys(p, saved, t, at)
                  && t.global.hist == p.global.hist
                  && t.global.observations == p.global.observations
                  && t.global.snapshot == p.global.snapshot)
  {
    var i := Saved(s, p, saved);
    SavedStorable(s, p, saved);
    RoundTrip(s.format, context, i);
    SavedSorted(s, p, saved);
    var rs := s.sort(i.records);
    RestoredBack(s, p.shards, Cleared(q.shards), rs, saved, at);
    BackIsSame(s, p, rs, Applied(s, q, i, at), saved, at);
  }
}
