/** Storage steps fail only when a storage call failed, and what starting up establishes. */
module FeedbackFaults {
  import opened Wire
  import opened FeedbackSegments
  import opened FeedbackIntegrity
  import opened FeedbackSteps

  lemma RetentionFaulted(o: Oracle, c: Config, s: Segments, extraBytes: nat, extraSegments: nat, t: Segments, ok: bool)
    requires Placed(s) && Deletable(c, s.files, extraBytes, extraSegments)
    requires (t, ok) == Retention(o, c, s, extraBytes, extraSegments)
    ensures s.calls < t.calls && (ok || !o(t.calls - 1).ok)
  {
    RetentionNeverStuck(o, c, s.files, s.calls, extraBytes, extraSegments,
                        Retain(o, c, s.files, s.calls, extraBytes, extraSegments));
  }

  /** Opening a segment fails only at a call that failed or when the segment numbers are used up. */
  lemma OpenSegmentFaulted(o: Oracle, c: Config, s: Segments, t: Segments, ok: bool)
    requires c.Valid() && Placed(s) && !s.active && (t, ok) == OpenSegment(o, c, s)
    ensures s.calls < t.calls && (ok || !o(t.calls - 1).ok || s.generation == MAX_GENERATION)
    ensures t.torn == s.torn
  {
    var (r, kept) := Retention(o, c, s, 0, 1);
    RetentionFaulted(o, c, s, 0, 1, r, kept);
  }

  lemma SealFaulted(o: Oracle, s: Segments, t: Segments, ok: bool)
    requires Placed(s) && s.open && (t, ok) == Seal(o, s)
    ensures s.calls < t.calls && (ok || !o(t.calls - 1).ok)
    ensures t.torn == s.torn && t.generation == s.generation
  {
  }

  lemma PrepareFaulted(o: Oracle, c: Config, s: Segments, size: nat, past: seq<seq<Byte>>, t: Segments, ok: bool)
    requires c.Valid() && Inv(c, s, past) && s.open && size <= c.segmentBytes
    requires (t, ok) == Prepare(o, c, s, size)
    ensures s.calls < t.calls && (ok || !o(t.calls - 1).ok || s.generation == MAX_GENERATION)
    ensures t.torn == s.torn
  {
    if size > c.segmentBytes - s.activeBytes {
      var (u, sealed) := Seal(o, s);
      SealFaulted(o, s, u, sealed);
      SealKeeps(o, c, s, past, u, sealed);
      if sealed {
        var (v, ready) := OpenSegment(o, c, u);
        OpenSegmentFaulted(o, c, u, v, ready);
        OpenSegmentKeeps(o, c, u, past, v, ready);
        if ready {
          RetentionFaulted(o, c, v, size, 0, t, ok);
        }
      }
    } else {
      RetentionFaulted(o, c, s, size, 0, t, ok);
    }
  }

  /** An operation stopped at the last call it made: a write that wrote nothing, leaving a torn
      record, or another call that was answered with a failure. */
  ghost predicate StoppedAt(o: Oracle, s: Segments, t: Segments) {
    && s.calls < t.calls
    && ((t.torn == s.torn && !o(t.calls - 1).ok) || (t.torn == s.torn + 1 && o(t.calls - 1).count == 0))
  }

  lemma {:induction false} WriteStops(o: Oracle, s: Segments, p: Segments, left: seq<Byte>, t: Segments, ok: bool)
    requires s.calls < p.calls && p.torn == s.torn
    requires p.files != [] && Balanced(p) && (t, ok) == WriteAll(o, p, left)
    ensures ok || StoppedAt(o, s, t)
  {
    WriteGrows(o, p, left, t, ok);
  }

  /** An append that prepares well is as good as its write. */
  lemma {:induction false} AppendPrepared(o: Oracle, c: Config, s: Segments, r: Rec, past: seq<seq<Byte>>, p: Segments)
    requires c.Valid() && Inv(c, s, past) && s.open && |r.text| <= c.segmentBytes
    requires (p, true) == Prepare(o, c, s, |r.text|)
    ensures p.files != [] && Balanced(p)
    ensures var (t, ok) := Append(o, c, s, r, past);
            var (w, done) := WriteAll(o, p, r.text);
            ok == done && t.calls == w.calls && t.torn == w.torn
  {
    PrepareKeeps(o, c, s, |r.text|, past, p, true);
  }

  lemma AppendTorn(o: Oracle, c: Config, s: Segments, r: Rec, past: seq<seq<Byte>>)
    requires c.Valid() && Inv(c, s, past) && s.open && |r.text| <= c.segmentBytes && Prepare(o, c, s, |r.text|).1
    ensures Append(o, c, s, r, past).1 || StoppedAt(o, s, Append(o, c, s, r, past).0)
  {
    var p := Prepare(o, c, s, |r.text|).0;
    PrepareFaulted(o, c, s, |r.text|, past, p, true);
    AppendPrepared(o, c, s, r, past, p);
    var (w, done) := WriteAll(o, p, r.text);
    WriteStops(o, s, p, r.text, w, done);
  }

  lemma AppendUnprepared(o: Oracle, c: Config, s: Segments, r: Rec, past: seq<seq<Byte>>)
    requires c.Valid() && Inv(c, s, past) && s.open && |r.text| <= c.segmentBytes && !Prepare(o, c, s, |r.text|).1
    ensures StoppedAt(o, s, Append(o, c, s, r, past).0) || s.generation == MAX_GENERATION
  {
    var p := Prepare(o, c, s, |r.text|).0;
    PrepareFaulted(o, c, s, |r.text|, past, p, false);
    assert Append(o, c, s, r, past) == (p, false);
  }

  /** A record is refused by healthy storage only because the last call failed, or because segment
      numbers are used up: with every limit respected at admission there is always room to be made. */
  lemma AppendFaulted(o: Oracle, c: Config, s: Segments, r: Rec, past: seq<seq<Byte>>)
    requires c.Valid() && Inv(c, s, past) && s.open && |r.text| <= c.maxEventBytes + 1
    ensures var (t, ok) := Append(o, c, s, r, past);
            ok || StoppedAt(o, s, t) || s.generation == MAX_GENERATION
  {
    if Prepare(o, c, s, |r.text|).1 {
      AppendTorn(o, c, s, r, past);
    } else {
      AppendUnprepared(o, c, s, r, past);
    }
  }

  // ----- starting -----

  /** Files left by earlier writers; a segment one of them left active is set aside. */
  ghost predicate Inherited(files: seq<File>) {
    forall f :: f in files ==> !f.own && f.records == []
  }

  function Quarantine(o: Oracle, files: seq<File>, n: nat, calls: nat): Pass
    requires n <= |files|
    decreases |files| - n
  {
    if n == |files| then Enough(files, calls)
    else if !files[n].kind.Active? then Quarantine(o, files, n + 1, calls)
    else if !o(calls).ok then Failed(files, calls + 1)
    else Quarantine(o, files[n := files[n].(kind := Suspect)], n + 1, calls + 1)
  }

  lemma {:induction false} QuarantineClears(o: Oracle, files: seq<File>, n: nat, calls: nat, p: Pass)
    requires n <= |files| && Inherited(files) && p == Quarantine(o, files, n, calls)
    requires forall i :: 0 <= i < n ==> !files[i].kind.Active?
    ensures Inherited(p.files) && !p.Again?
    ensures p.Enough? ==> forall f :: f in p.files ==> !f.kind.Active?
    decreases |files| - n
  {
    if n < |files| {
      if !files[n].kind.Active? {
        QuarantineClears(o, files, n + 1, calls, p);
      } else if o(calls).ok {
        assert files[n] in files;
        QuarantineClears(o, files[n := files[n].(kind := Suspect)], n + 1, calls + 1, p);
      }
    }
  }

  function Fresh(files: seq<File>, calls: nat): Segments {
    Segments(files, false, false, 0, 0, false, false, 0, 0, 0, 0, 0, 0, calls)
  }

  /** Quarantine, retention and a first segment; the writer exists only when all of it succeeds. */
  function Start(o: Oracle, c: Config, files: seq<File>): (Segments, bool) {
    var q := Quarantine(o, files, 0, 0);
    if !q.Enough? then (Fresh(q.files, q.calls), false)
    else if !o(q.calls).ok then (Fresh(q.files, q.calls + 1), false)
    else
      var (r, kept) := Retention(o, c, Fresh(q.files, q.calls + 1), 0, 0);
      if !kept then (r, false)
      else
        var (s, ok) := OpenSegment(o, c, r);
        (s.(healthy := ok), ok)
  }

  lemma {:induction false} InheritedFlat(files: seq<File>)
    requires Inherited(files)
    ensures Flat(files) == []
  {
    if files != [] {
      assert Last(files) in files;
      InheritedFlat(Front(files));
    }
  }

  lemma FreshReady(c: Config, files: seq<File>, calls: nat)
    requires Inherited(files) && forall f :: f in files ==> !f.kind.Active?
    ensures var s := Fresh(files, calls);
            Placed(s) && FilesOk(c, s.files, []) && Balanced(s)
  {
    InheritedFlat(files);
    assert files != [] ==> Last(files) in files;
  }

  /** Whatever files are found, a writer that starts is within its limits and holds nothing yet. */
  lemma StartEstablishes(o: Oracle, c: Config, files: seq<File>)
    requires c.Valid() && Inherited(files)
    ensures var (s, ok) := Start(o, c, files);
            ok ==> Inv(c, s, []) && s.healthy && !s.stopped && s.written == 0
  {
    var q := Quarantine(o, files, 0, 0);
    QuarantineClears(o, files, 0, 0, q);
    if q.Enough? && o(q.calls).ok {
      FreshReady(c, q.files, q.calls + 1);
      var f := Fresh(q.files, q.calls + 1);
      var (r, kept) := Retention(o, c, f, 0, 0);
      RetentionCore(o, c, f, 0, 0, [], r, kept);
      if kept {
        var (s, ok) := OpenSegment(o, c, r);
        OpenSegmentKeeps(o, c, r, [], s, ok);
      }
    }
  }
}
