/** The predictor's snapshot file: what save writes and what load accepts. Doubles travel as their
    64-bit images, which the format is given. */
module SnapshotCodec {
  import opened Options
  import opened Histogram
  import opened HistogramTolerance
  import opened Boundaries
  import opened Wire
  import opened KeyTable

  const MAGIC: seq<Byte> := [72, 66, 80, 75, 83, 78, 80, 49]
  const VERSION := 1
  const BYTE_ORDER := 0x01020304
  const MAX_BYTES := 0x4000_0000
  const MAX_CONTEXT := 4096

  type Word = x: nat | x < TWO_64

  /** The layout and limits both sides are configured with, and the machine's double images. */
  datatype Format = Format(layout: Layout, levels: nat, maxKeys: nat, shards: nat,
                           image: real -> Word, value: nat -> Option<real>)
  {
    ghost predicate Valid() {
      && layout.Valid() && 1 <= levels <= 255 && 1 <= shards <= 256 && shards <= maxKeys
      && Stored(layout.edges[1]) && Stored(layout.MaxMs())
    }

    /** A non-negative number that is a double. */
    predicate Stored(x: real) {
      0.0 <= x && value(image(x)) == Some(x)
    }
  }

  /** One key as it is saved: its age in milliseconds stands for its last activity. */
  datatype Record = Record(key: Key, hist: Hist, age: int, tier: int)

  datatype Image = Image(boundaries: Option<Snapshot>, global: Hist, observations: nat, records: seq<Record>)

  // ----- numbers -----

  lemma Limits()
    ensures Limit(1) == 256 && Limit(4) == TWO_32 && Limit(8) == TWO_64
  {
  }

  function PutReal(f: Format, x: real, rest: seq<Byte>): seq<Byte> {
    PutInt(f.image(x), 8, rest)
  }

  /** A finite, non-negative double. */
  function GetFinite(f: Format, data: seq<Byte>): Read<real> {
    var (bits, d) :- GetInt(data, 8);
    var v := f.value(bits);
    if v.None? || v.value < 0.0 then Fail(InvalidNumber) else Done(v.value, d)
  }

  lemma GetsFinite(f: Format, x: real, rest: seq<Byte>)
    requires f.Stored(x)
    ensures GetFinite(f, PutReal(f, x, rest)) == Done(x, rest)
  {
    Limits();
    GetsInt(f.image(x), 8, rest);
  }

  function RealWriter(f: Format): Putter<real> {
    (x: real, rest: seq<Byte>) => PutReal(f, x, rest)
  }

  function RealReader(f: Format): Getter<real> {
    (data: seq<Byte>) => GetFinite(f, data)
  }

  function PutReals(f: Format, xs: seq<real>, rest: seq<Byte>): seq<Byte> {
    PutMany(RealWriter(f), xs, rest)
  }

  function GetReals(f: Format, data: seq<Byte>, n: nat): Read<seq<real>> {
    GetMany(RealReader(f), data, n)
  }

  lemma GetsReals(f: Format, xs: seq<real>, rest: seq<Byte>)
    requires AllStored(f, xs)
    ensures GetReals(f, PutReals(f, xs, rest), |xs|) == Done(xs, rest)
  {
    forall x, d: seq<Byte> | x in xs
      ensures RealReader(f)(RealWriter(f)(x, d)) == Done(x, d)
    {
      GetsFinite(f, x, d);
    }
    GetsMany(RealWriter(f), RealReader(f), xs, rest);
  }

  ghost predicate AllStored(f: Format, xs: seq<real>) {
    forall x :: x in xs ==> f.Stored(x)
  }

  lemma RealsRead(f: Format, data: seq<Byte>, n: nat)
    ensures var r := GetReals(f, data, n);
            r.Done? ==> |r.value| == n && NonNegative(r.value)
  {
    var ok := (x: real) => 0.0 <= x;
    ManyRead(RealReader(f), ok, data, n);
    var r := GetReals(f, data, n);
    assert r.Done? ==> forall i :: 0 <= i < |r.value| ==> r.value[i] in r.value && ok(r.value[i]);
  }

  // ----- histograms -----

  function PutHist(f: Format, h: Hist, rest: seq<Byte>): seq<Byte> {
    PutReals(f, h.counts, PutReal(f, h.scale, PutReal(f, h.total, PutReal(f, h.sum, PutReal(f, h.censored,
      PutInt(h.observations, 8, rest))))))
  }

  function GetHist(f: Format, data: seq<Byte>): Read<Hist>
    requires f.layout.Valid()
  {
    var (counts, d) :- GetReals(f, data, f.layout.Bins());
    var (scale, d) :- GetFinite(f, d);
    var (total, d) :- GetFinite(f, d);
    var (sum, d) :- GetFinite(f, d);
    var (censored, d) :- GetFinite(f, d);
    var (observations, d) :- GetInt(d, 8);
    if scale < 1.0 || scale > MAX_SCALE || !Near(Sum(counts), total) then Fail(InconsistentHistogram)
    else Done(Hist(counts, scale, total, sum, censored, observations), d)
  }

  ghost predicate StorableHist(f: Format, h: Hist) {
    && Acceptable(f.layout, h)
    && AllStored(f, h.counts)
    && f.Stored(h.scale) && f.Stored(h.total) && f.Stored(h.sum) && f.Stored(h.censored)
    && h.observations < TWO_64
  }

  lemma GetsHist(f: Format, h: Hist, rest: seq<Byte>)
    requires f.Valid() && StorableHist(f, h)
    ensures GetHist(f, PutHist(f, h, rest)) == Done(h, rest)
  {
    var r5 := PutInt(h.observations, 8, rest);
    var r4 := PutReal(f, h.censored, r5);
    var r3 := PutReal(f, h.sum, r4);
    var r2 := PutReal(f, h.total, r3);
    GetsReals(f, h.counts, PutReal(f, h.scale, r2));
    GetsFinite(f, h.scale, r2);
    GetsFinite(f, h.total, r3);
    GetsFinite(f, h.sum, r4);
    GetsFinite(f, h.censored, r5);
    GetsInt(h.observations, 8, rest);
  }

  lemma HistRead(f: Format, data: seq<Byte>)
    requires f.Valid()
    ensures GetHist(f, data).Done? ==> Acceptable(f.layout, GetHist(f, data).value)
  {
    RealsRead(f, data, f.layout.Bins());
  }

  // ----- boundaries -----

  function PutBoundaries(f: Format, b: Option<Snapshot>, rest: seq<Byte>): seq<Byte> {
    match b
    case None => PutInt(0, 1, rest)
    case Some(s) => PutInt(1, 1, PutSnapshot(f, s, rest))
  }

  function PutSnapshot(f: Format, s: Snapshot, rest: seq<Byte>): seq<Byte> {
    PutInt(s.sequence, 8, PutInt(|s.boundaries|, 4, PutReals(f, s.boundaries, rest)))
  }

  function GetBoundaries(f: Format, data: seq<Byte>): Read<Option<Snapshot>>
    requires 1 <= f.levels
  {
    var (flag, d) :- GetInt(data, 1);
    if flag == 0 then Done(None, d)
    else
      var (s, d) :- GetSnapshot(f, d);
      Done(Some(s), d)
  }

  function GetSnapshot(f: Format, data: seq<Byte>): Read<Snapshot>
    requires 1 <= f.levels
  {
    var (sequence, d) :- GetInt(data, 8);
    var (count, d) :- GetInt(d, 4);
    if count != f.levels - 1 then Fail(BoundaryCountDiffers)
    else
      var (b, d) :- GetReals(f, d, count);
      if count > 0 && !Usable(b) then Fail(BoundariesNotIncreasing) else Done(Snapshot(sequence, b), d)
  }

  ghost predicate StorableSnapshot(f: Format, s: Snapshot) {
    && Published(f.levels, s)
    && s.sequence < TWO_64
    && AllStored(f, s.boundaries)
  }

  lemma GetsSnapshot(f: Format, s: Snapshot, rest: seq<Byte>)
    requires f.Valid() && StorableSnapshot(f, s)
    ensures GetSnapshot(f, PutSnapshot(f, s, rest)) == Done(s, rest)
  {
    Limits();
    var r1 := PutReals(f, s.boundaries, rest);
    GetsInt(s.sequence, 8, PutInt(|s.boundaries|, 4, r1));
    GetsInt(|s.boundaries|, 4, r1);
    GetsReals(f, s.boundaries, rest);
  }

  lemma GetsBoundaries(f: Format, b: Option<Snapshot>, rest: seq<Byte>)
    requires f.Valid() && (b.Some? ==> StorableSnapshot(f, b.value))
    ensures GetBoundaries(f, PutBoundaries(f, b, rest)) == Done(b, rest)
  {
    Limits();
    match b
    case None => GetsInt(0, 1, rest);
    case Some(s) =>
      GetsInt(1, 1, PutSnapshot(f, s, rest));
      GetsSnapshot(f, s, rest);
  }

  lemma SnapshotRead(f: Format, data: seq<Byte>)
    requires f.Valid()
    ensures GetSnapshot(f, data).Done? ==> Published(f.levels, GetSnapshot(f, data).value)
  {
    var e := GetInt(data, 8);
    if e.Done? {
      var g := GetInt(e.rest, 4);
      if g.Done? {
        RealsRead(f, g.rest, g.value);
      }
    }
  }

  // ----- keys -----

  function PutRecord(f: Format, k: Record, rest: seq<Byte>): seq<Byte> {
    PutString(k.key.bytes, PutHist(f, k.hist, PutInt(Unsigned64(k.age), 8, PutInt(Unsigned32(k.tier), 4, rest))))
  }

  function GetRecord(f: Format, data: seq<Byte>): Read<Record>
    requires f.layout.Valid()
  {
    var (key, d) :- GetString(data, MAX_KEY_BYTES);
    if key == [] then Fail(EmptyKey)
    else
      var (h, d) :- GetHist(f, d);
      var (age, d) :- GetInt(d, 8);
      var (tier, d) :- GetInt(d, 4);
      if Signed64(age) < 0 || Signed32(tier) < -1 || Signed32(tier) >= f.levels then Fail(MetadataOutOfRange)
      else Done(Record(Key(key), h, Signed64(age), Signed32(tier)), d)
  }

  ghost predicate StorableRecord(f: Format, k: Record) {
    UsableKey(k.key) && StorableHist(f, k.hist) && 0 <= 2 * k.age < TWO_64 && -1 <= k.tier < f.levels
  }

  lemma GetsRecord(f: Format, k: Record, rest: seq<Byte>)
    requires f.Valid() && StorableRecord(f, k)
    ensures GetRecord(f, PutRecord(f, k, rest)) == Done(k, rest)
  {
    Limits();
    var r3 := PutInt(Unsigned32(k.tier), 4, rest);
    var r2 := PutInt(Unsigned64(k.age), 8, r3);
    GetsString(k.key.bytes, MAX_KEY_BYTES, PutHist(f, k.hist, r2));
    GetsHist(f, k.hist, r2);
    SignedUnsigned(k.age);
    GetsInt(Unsigned64(k.age), 8, r3);
    SignedUnsigned(k.tier);
    GetsInt(Unsigned32(k.tier), 4, rest);
  }

  ghost predicate RecordOk(f: Format, k: Record) {
    UsableKey(k.key) && Acceptable(f.layout, k.hist) && 0 <= k.age && -1 <= k.tier < f.levels
  }

  lemma RecordRead(f: Format, data: seq<Byte>)
    requires f.Valid()
    ensures GetRecord(f, data).Done? ==> RecordOk(f, GetRecord(f, data).value)
  {
    var s := GetString(data, MAX_KEY_BYTES);
    if s.Done? {
      HistRead(f, s.rest);
    }
  }

  function RecordWriter(f: Format): Putter<Record> {
    (k: Record, rest: seq<Byte>) => PutRecord(f, k, rest)
  }

  function RecordReader(f: Format): Getter<Record>
    requires f.layout.Valid()
  {
    (data: seq<Byte>) => GetRecord(f, data)
  }

  lemma {:induction false} GetsRecords(f: Format, ks: seq<Record>)
    requires f.Valid() && forall k :: k in ks ==> StorableRecord(f, k)
    ensures GetMany(RecordReader(f), PutMany(RecordWriter(f), ks, []), |ks|) == Done(ks, [])
  {
    forall k, d: seq<Byte> | k in ks
      ensures RecordReader(f)(RecordWriter(f)(k, d)) == Done(k, d)
    {
      GetsRecord(f, k, d);
    }
    GetsMany(RecordWriter(f), RecordReader(f), ks, []);
  }

  ghost predicate AllOk(f: Format, ks: seq<Record>) {
    forall k :: k in ks ==> RecordOk(f, k)
  }

  lemma {:induction false} RecordsRead(f: Format, data: seq<Byte>, n: nat)
    requires f.Valid()
    ensures var r := GetMany(RecordReader(f), data, n);
            r.Done? ==> |r.value| == n && AllOk(f, r.value)
  {
    forall d: seq<Byte>
      ensures RecordReader(f)(d).Done? ==> RecordOk(f, RecordReader(f)(d).value)
    {
      RecordRead(f, d);
    }
    ManyRead(RecordReader(f), (k: Record) => RecordOk(f, k), data, n);
  }

  // ----- the file -----

  function PutHeader(f: Format, context: seq<Byte>, rest: seq<Byte>): seq<Byte>
    requires f.layout.Valid()
  {
    PutInt(VERSION, 4, PutInt(BYTE_ORDER, 4, PutString(context, PutInt(f.layout.Bins(), 4,
      PutReal(f, f.layout.edges[1], PutReal(f, f.layout.MaxMs(), PutInt(f.levels, 4, rest)))))))
  }

  function GetHeader(f: Format, data: seq<Byte>, context: seq<Byte>): Read<()>
    requires f.layout.Valid()
  {
    var (version, d) :- GetInt(data, 4);
    if version != VERSION then Fail(UnsupportedVersion)
    else
      var (order, d) :- GetInt(d, 4);
      if order != BYTE_ORDER then Fail(ByteOrderDiffers)
      else
        var (tag, d) :- GetString(d, MAX_CONTEXT);
        if tag != context then Fail(ContextDiffers) else GetLayout(f, d)
  }

  function GetLayout(f: Format, data: seq<Byte>): Read<()>
    requires f.layout.Valid()
  {
    var (bins, d) :- GetInt(data, 4);
    if bins != f.layout.Bins() then Fail(LayoutDiffers)
    else
      var (low, d) :- GetInt(d, 8);
      if f.value(low) != Some(f.layout.edges[1]) then Fail(LayoutDiffers)
      else
        var (high, d) :- GetInt(d, 8);
        if f.value(high) != Some(f.layout.MaxMs()) then Fail(LayoutDiffers)
        else
          var (levels, d) :- GetInt(d, 4);
          if levels != f.levels then Fail(LayoutDiffers) else Done((), d)
  }

  lemma GetsLayout(f: Format, rest: seq<Byte>)
    requires f.Valid()
    ensures GetLayout(f, PutInt(f.layout.Bins(), 4, PutReal(f, f.layout.edges[1], PutReal(f, f.layout.MaxMs(),
              PutInt(f.levels, 4, rest))))) == Done((), rest)
  {
    Limits();
    var r3 := PutInt(f.levels, 4, rest);
    var r2 := PutReal(f, f.layout.MaxMs(), r3);
    var r1 := PutReal(f, f.layout.edges[1], r2);
    GetsInt(f.layout.Bins(), 4, r1);
    GetsInt(f.image(f.layout.edges[1]), 8, r2);
    GetsInt(f.image(f.layout.MaxMs()), 8, r3);
    GetsInt(f.levels, 4, rest);
  }

  lemma GetsHeader(f: Format, context: seq<Byte>, rest: seq<Byte>)
    requires f.Valid() && |context| < TWO_32
    ensures GetHeader(f, PutHeader(f, context, rest), context)
         == if |context| <= MAX_CONTEXT then Done((), rest) else Fail(StringOutOfBounds)
  {
    Limits();
    var r3 := PutInt(f.layout.Bins(), 4, PutReal(f, f.layout.edges[1], PutReal(f, f.layout.MaxMs(),
                PutInt(f.levels, 4, rest))));
    var r2 := PutString(context, r3);
    GetsInt(VERSION, 4, PutInt(BYTE_ORDER, 4, r2));
    GetsInt(BYTE_ORDER, 4, r2);
    GetsString(context, MAX_CONTEXT, r3);
    GetsLayout(f, rest);
  }

  function PutImage(f: Format, i: Image): seq<Byte> {
    PutBoundaries(f, i.boundaries, PutHist(f, i.global, PutInt(i.observations, 8,
      PutInt(|i.records|, 8, PutMany(RecordWriter(f), i.records, [])))))
  }

  function GetImage(f: Format, data: seq<Byte>): Read<Image>
    requires f.layout.Valid() && 1 <= f.levels
  {
    var (boundaries, d) :- GetBoundaries(f, data);
    var (global, d) :- GetHist(f, d);
    var (observations, d) :- GetInt(d, 8);
    var (count, d) :- GetInt(d, 8);
    if count > f.maxKeys + f.shards then Fail(TooManyKeys)
    else
      var (records, d) :- GetMany(RecordReader(f), d, count);
      if d != [] then Fail(TrailingData) else Done(Image(boundaries, global, observations, records), d)
  }

  ghost predicate Storable(f: Format, i: Image) {
    && (i.boundaries.Some? ==> StorableSnapshot(f, i.boundaries.value))
    && StorableHist(f, i.global)
    && i.observations < TWO_64
    && |i.records| <= f.maxKeys + f.shards && |i.records| < TWO_64
    && forall k :: k in i.records ==> StorableRecord(f, k)
  }

  lemma GetsImage(f: Format, i: Image)
    requires f.Valid() && Storable(f, i)
    ensures GetImage(f, PutImage(f, i)) == Done(i, [])
  {
    var r3 := PutMany(RecordWriter(f), i.records, []);
    var r2 := PutInt(|i.records|, 8, r3);
    var r1 := PutInt(i.observations, 8, r2);
    GetsBoundaries(f, i.boundaries, PutHist(f, i.global, r1));
    GetsHist(f, i.global, r1);
    GetsInt(i.observations, 8, r2);
    GetsInt(|i.records|, 8, r3);
    GetsRecords(f, i.records);
  }

  function Serialize(f: Format, context: seq<Byte>, i: Image): seq<Byte>
    requires f.layout.Valid()
  {
    var body := MAGIC + PutHeader(f, context, PutImage(f, i));
    body + Put(Checksum(body), 8)
  }

  function Parse(f: Format, data: seq<Byte>, context: seq<Byte>): Read<Image>
    requires f.layout.Valid() && 1 <= f.levels
  {
    if |data| > MAX_BYTES || |data| < 16 then Fail(SizeOutOfBounds)
    else
      var body := data[..|data| - 8];
      if data[..8] != MAGIC then Fail(NotASnapshot)
      else if Checksum(body) != Get(data[|data| - 8..]) then Fail(ChecksumMismatch)
      else
        var (_, d) :- GetHeader(f, body[8..], context);
        GetImage(f, d)
  }

  lemma ChecksumFits(data: seq<Byte>)
    ensures Checksum(data) < Limit(8)
  {
    Limits();
  }

  lemma SerializeSize(f: Format, context: seq<Byte>, i: Image)
    requires f.layout.Valid()
    ensures |Serialize(f, context, i)| >= 16 + |context|
  {
  }

  /** What is written is read back: accepted exactly when the file and its context label are within
      their limits, and then every part of the image is the one that was saved. */
  lemma RoundTrip(f: Format, context: seq<Byte>, i: Image)
    requires f.Valid() && Storable(f, i)
    ensures Parse(f, Serialize(f, context, i), context)
         == if |Serialize(f, context, i)| > MAX_BYTES then Fail(SizeOutOfBounds)
            else if |context| > MAX_CONTEXT then Fail(StringOutOfBounds)
            else Done(i, [])
  {
    var rest := PutHeader(f, context, PutImage(f, i));
    SerializeSize(f, context, i);
    if |Serialize(f, context, i)| <= MAX_BYTES {
      Framed(Serialize(f, context, i), rest);
      GetsHeader(f, context, PutImage(f, i));
      GetsImage(f, i);
    }
  }

  /** The mark in front and the checksum behind are found where they were put. */
  lemma Framed(data: seq<Byte>, rest: seq<Byte>)
    requires data == MAGIC + rest + Put(Checksum(MAGIC + rest), 8)
    ensures var n := |data| - 8;
            && n >= 8 && data[..8] == MAGIC && data[..n] == MAGIC + rest && data[..n][8..] == rest
            && Get(data[n..]) == Checksum(data[..n])
  {
    var body := MAGIC + rest;
    Limits();
    assert data[..|data| - 8] == body && data[|data| - 8..] == Put(Checksum(body), 8);
    assert body[8..] == rest;
    ChecksumFits(body);
    GetPut(Checksum(body), 8);
  }

  /** Whatever bytes are accepted, the image is fit to be applied. */
  ghost predicate Restorable(f: Format, i: Image) {
    && (i.boundaries.Some? ==> Published(f.levels, i.boundaries.value))
    && Acceptable(f.layout, i.global)
    && |i.records| <= f.maxKeys + f.shards
    && AllOk(f, i.records)
  }

  lemma BoundariesRead(f: Format, data: seq<Byte>)
    requires f.Valid()
    ensures var r := GetBoundaries(f, data);
            r.Done? && r.value.Some? ==> Published(f.levels, r.value.value)
  {
    var d := GetInt(data, 1);
    if d.Done? {
      SnapshotRead(f, d.rest);
    }
  }

  lemma AcceptedIsRestorable(f: Format, data: seq<Byte>, context: seq<Byte>)
    requires f.Valid()
    ensures Parse(f, data, context).Done? ==> Restorable(f, Parse(f, data, context).value)
  {
    if Parse(f, data, context).Done? {
      ImageRead(f, GetHeader(f, data[..|data| - 8][8..], context).rest);
    }
  }

  lemma ImageRead(f: Format, data: seq<Byte>)
    requires f.Valid()
    ensures GetImage(f, data).Done? ==> Restorable(f, GetImage(f, data).value)
  {
    BoundariesRead(f, data);
    var b := GetBoundaries(f, data);
    if b.Done? {
      HistRead(f, b.rest);
      var h := GetHist(f, b.rest);
      if h.Done? {
        var o := GetInt(h.rest, 8);
        if o.Done? {
          var n := GetInt(o.rest, 8);
          if n.Done? {
            RecordsRead(f, n.rest, n.value);
          }
        }
      }
    }
  }
}
