/** The writer thread's storage steps: recovering, appending, syncing and finishing, each with its
    failure path. */
module FeedbackSteps {
  import opened Wire
  import opened FeedbackSegments
  import opened FeedbackIntegrity

  // ----- recovering -----

  lemma RecoverKeeps(o: Oracle, c: Config, s: Segments, past: seq<seq<Byte>>, t: Segments, ok: bool)
    requires c.Valid() && Inv(c, s, past) && !s.healthy && (t, ok) == Recover(o, c, s)
    ensures Core(c, t, past) && t.written == s.written && t.stopped == s.stopped
    ensures ok && !s.stopped ==> Inv(c, t, past)
  {
    var r := if s.active then Called(Renamed(s, Suspect), 1) else s;
    if s.active {
      RenamedKeeps(c, s, Suspect, past);
    }
    var (u, ready) := OpenSegment(o, c, r);
    OpenSegmentKeeps(o, c, r, past, u, ready);
  }

  function RecoverStep(o: Oracle, c: Config, s: Segments, ghost past: seq<seq<Byte>>): Segments
    requires c.Valid() && Inv(c, s, past) && !s.healthy
  {
    var (t, ok) := Recover(o, c, s);
    RecoverKeeps(o, c, s, past, t, ok);
    if ok then t else Abandon(o, t)
  }

  // ----- appending -----

  /** The last file after a part of a record, from its start, was written to it. */
  ghost predicate Grown(f: File, g: File, left: seq<Byte>, all: bool) {
    && g == f.(content := g.content, mtime := g.mtime)
    && f.content <= g.content <= f.content + left
    && (all ==> g.content == f.content + left)
  }

  lemma GrownMore(f: File, g: File, h: File, left: seq<Byte>, n: nat, all: bool)
    requires 0 < n <= |left| && Grown(f, g, left[..n], true) && Grown(g, h, left[n..], all)
    ensures Grown(f, h, left, all)
  {
    assert f.content + left[..n] + left[n..] == f.content + left;
  }

  lemma ExtendedGrows(s: Segments, bytes: seq<Byte>, now: int, u: Segments)
    requires s.files != [] && u == Called(Extended(s, bytes, now), 1)
    ensures u == s.(files := u.files, activeBytes := u.activeBytes, calls := s.calls + 1)
    ensures u.files != [] && Front(u.files) == Front(s.files) && Grown(Last(s.files), Last(u.files), bytes, true)
    ensures u.activeBytes - s.activeBytes == |Last(u.files).content| - |Last(s.files).content|
  {
  }

  /** A record is written whole, or its start is written, torn at a call that wrote nothing. */
  lemma {:induction false} WriteGrows(o: Oracle, s: Segments, left: seq<Byte>, t: Segments, ok: bool)
    requires s.files != [] && Balanced(s) && (t, ok) == WriteAll(o, s, left)
    ensures t == s.(files := t.files, activeBytes := t.activeBytes, uncertain := t.uncertain, torn := t.torn,
                    calls := t.calls)
    ensures t.files != [] && Front(t.files) == Front(s.files) && Grown(Last(s.files), Last(t.files), left, ok)
    ensures t.activeBytes - s.activeBytes == |Last(t.files).content| - |Last(s.files).content|
    ensures Balanced(t) && s.calls <= t.calls
    ensures t.torn == s.torn + if ok then 0 else 1
    ensures ok || (s.calls < t.calls && o(t.calls - 1).count == 0)
    decreases |left|
  {
    if left == [] {
      assert Last(s.files).content + left == Last(s.files).content;
    } else {
      var a := o(s.calls);
      if a.count > 0 {
        var n := AtMost(a.count, |left|);
        var u := Called(Extended(s, left[..n], a.now), 1);
        ExtendedGrows(s, left[..n], a.now, u);
        WriteGrows(o, u, left[n..], t, ok);
        GrownMore(Last(s.files), Last(u.files), Last(t.files), left, n, ok);
      }
    }
  }

  lemma PrepareKeeps(o: Oracle, c: Config, s: Segments, size: nat, past: seq<seq<Byte>>, t: Segments, ok: bool)
    requires c.Valid() && Inv(c, s, past) && s.open && size <= c.segmentBytes
    requires (t, ok) == Prepare(o, c, s, size)
    ensures Core(c, t, past) && t.written == s.written && t.healthy == s.healthy && t.stopped == s.stopped
    ensures ok ==> t.open && t.files != [] && Whole(Last(t.files))
    ensures ok ==> t.activeBytes + size <= c.segmentBytes && TotalBytes(t.files) + size <= c.retentionBytes
  {
    if size > c.segmentBytes - s.activeBytes {
      var (u, sealed) := Seal(o, s);
      SealKeeps(o, c, s, past, u, sealed);
      if sealed {
        var (v, ready) := OpenSegment(o, c, u);
        OpenSegmentKeeps(o, c, u, past, v, ready);
        if ready {
          RetentionCore(o, c, v, size, 0, past, t, ok);
        }
      }
    } else {
      RetentionCore(o, c, s, size, 0, past, t, ok);
    }
  }

  function Append(o: Oracle, c: Config, s: Segments, r: Rec, ghost past: seq<seq<Byte>>): (Segments, bool)
    requires c.Valid() && Inv(c, s, past) && s.open && |r.text| <= c.segmentBytes
  {
    var (p, ready) := Prepare(o, c, s, |r.text|);
    PrepareKeeps(o, c, s, |r.text|, past, p, ready);
    if !ready then (p, false)
    else
      var (w, ok) := WriteAll(o, p, r.text);
      WriteGrows(o, p, r.text, w, ok);
      if ok then (Logged(w, r), true) else (w, false)
  }

  lemma {:induction false} GrownOk(c: Config, files: seq<File>, t: seq<File>, left: seq<Byte>, all: bool,
                                   past: seq<seq<Byte>>)
    requires files != [] && FilesOk(c, files, past) && Last(files).kind.Active?
    requires t != [] && Front(t) == Front(files) && Grown(Last(files), Last(t), left, all)
    requires |Last(files).content| + |left| <= c.segmentBytes
    ensures FilesOk(c, t, past) && TotalBytes(t) <= TotalBytes(files) + |left| && |t| == |files|
  {
    Rejoin(t);
    assert Last(files) in files;
    ReplaceLast(c, files, Last(t), past);
  }

  lemma IncreasingMore(rs: seq<Rec>, r: Rec, past: seq<seq<Byte>>)
    requires Increasing(rs) && Below(rs, past) && |past| == r.index
    ensures Increasing(rs + [r]) && Below(rs + [r], past + [r.text])
  {
  }

  /** The record joins the last file's records, after all earlier ones. */
  lemma {:induction false} LoggedFiles(c: Config, files: seq<File>, f: File, r: Rec, t: seq<File>, past: seq<seq<Byte>>)
    requires files != [] && FilesOk(c, files, past) && |past| == r.index && f == Last(files) && f.kind.Active?
    requires t == Front(files) + [f.(records := f.records + [r])]
    ensures FilesOk(c, t, past + [r.text]) && TotalBytes(t) == TotalBytes(files) && |t| == |files|
  {
    assert Front(t) == Front(files) && Last(t) == f.(records := f.records + [r]);
    assert Flat(t) == Flat(files) + [r];
    IncreasingMore(Flat(files), r, past);
    assert f in files;
  }

  lemma LoggedOk(c: Config, s: Segments, r: Rec, past: seq<seq<Byte>>)
    requires Placed(s) && s.active && FilesOk(c, s.files, past) && |past| == r.index && Limits(c, s.files)
    requires Last(s.files).content == Concat(Last(s.files).records) + r.text
    ensures var t := Logged(s, r);
            Placed(t) && FilesOk(c, t.files, past + [r.text]) && Limits(c, t.files) && Whole(Last(t.files))
  {
    var t := Logged(s, r);
    var f, g := Last(s.files), Last(t.files);
    LoggedFiles(c, s.files, f, r, t.files, past);
    assert Front(g.records) == f.records && Last(g.records) == r;
  }

  lemma AppendKeeps(o: Oracle, c: Config, s: Segments, r: Rec, past: seq<seq<Byte>>, t: Segments, ok: bool)
    requires c.Valid() && Inv(c, s, past) && s.open && |r.text| <= c.segmentBytes && |past| == r.index
    requires (t, ok) == Append(o, c, s, r, past)
    ensures Core(c, t, past + [r.text])
    ensures ok ==> Inv(c, t, past + [r.text]) && t.healthy
    ensures t.written == s.written + (if ok then 1 else 0) && t.stopped == s.stopped
  {
    var (p, ready) := Prepare(o, c, s, |r.text|);
    PrepareKeeps(o, c, s, |r.text|, past, p, ready);
    if ready {
      var (w, done) := WriteAll(o, p, r.text);
      WriteGrows(o, p, r.text, w, done);
      GrownOk(c, p.files, w.files, r.text, done, past);
      WrittenPlaced(p, w);
      if done {
        LoggedOk(c, w, r, past);
      } else {
        Raised(c, w.files, past, past + [r.text]);
      }
    } else {
      Raised(c, p.files, past, past + [r.text]);
    }
  }

  lemma WrittenPlaced(s: Segments, t: Segments)
    requires Placed(s) && s.active && s.files != [] && t.files != [] && Front(t.files) == Front(s.files)
    requires t.active && t.open == s.open && Last(t.files).kind.Active? && Last(t.files).own
    requires t.activeBytes - s.activeBytes == |Last(t.files).content| - |Last(s.files).content|
    ensures Placed(t)
  {
    assert forall i :: 0 <= i < |t.files| - 1 ==> t.files[i] == Front(t.files)[i] == s.files[i];
  }

  lemma Raised(c: Config, files: seq<File>, past: seq<seq<Byte>>, more: seq<seq<Byte>>)
    requires FilesOk(c, files, past) && past <= more
    ensures FilesOk(c, files, more)
  {
  }

  /** Append one record; on any failure the segment is given up. */
  function AppendStep(o: Oracle, c: Config, s: Segments, r: Rec, ghost past: seq<seq<Byte>>): (Segments, bool)
    requires c.Valid() && Inv(c, s, past) && s.open && |r.text| <= c.segmentBytes && |past| == r.index
  {
    var (t, ok) := Append(o, c, s, r, past);
    AppendKeeps(o, c, s, r, past, t, ok);
    if ok then (t, true) else (Abandon(o, t), false)
  }

  lemma AppendStepKeeps(o: Oracle, c: Config, s: Segments, r: Rec, past: seq<seq<Byte>>)
    requires c.Valid() && Inv(c, s, past) && s.open && |r.text| <= c.segmentBytes && |past| == r.index
    ensures var (t, ok) := AppendStep(o, c, s, r, past);
            && Inv(c, t, past + [r.text]) && t.stopped == s.stopped
            && t.written == s.written + (if ok then 1 else 0)
            && ok == t.healthy == Append(o, c, s, r, past).1
  {
    var (t, ok) := Append(o, c, s, r, past);
    AppendKeeps(o, c, s, r, past, t, ok);
    AbandonKeeps(o, c, t, past + [r.text]);
  }

  // ----- syncing and finishing -----

  function SyncStep(o: Oracle, c: Config, s: Segments, ghost past: seq<seq<Byte>>): Segments
    requires c.Valid() && Inv(c, s, past) && s.open
  {
    var (t, synced) := SyncActive(o, s);
    var (u, ok) := if synced then Retention(o, c, t, 0, 0) else (t, false);
    SyncRetains(o, c, s, past, t, synced, u, ok);
    if ok then u else Abandon(o, u)
  }

  lemma SyncRetains(o: Oracle, c: Config, s: Segments, past: seq<seq<Byte>>, t: Segments, synced: bool, u: Segments,
                    ok: bool)
    requires Inv(c, s, past) && s.open && (t, synced) == SyncActive(o, s)
    requires (u, ok) == if synced then Retention(o, c, t, 0, 0) else (t, false)
    ensures Core(c, u, past) && u.written == s.written && u.stopped == s.stopped
    ensures ok ==> Inv(c, u, past) && u.synced + u.abandoned == u.written
  {
    SyncKeeps(o, s, t, synced);
    CoreFrame(c, s, t, past);
    if synced {
      RetentionCore(o, c, t, 0, 0, past, u, ok);
    }
  }

  lemma SyncStepKeeps(o: Oracle, c: Config, s: Segments, past: seq<seq<Byte>>)
    requires c.Valid() && Inv(c, s, past) && s.open
    ensures var t := SyncStep(o, c, s, past);
            && Inv(c, t, past) && t.written == s.written && t.stopped == s.stopped
            && t.synced + t.abandoned == t.written
  {
    var (t, synced) := SyncActive(o, s);
    var (u, ok) := if synced then Retention(o, c, t, 0, 0) else (t, false);
    SyncRetains(o, c, s, past, t, synced, u, ok);
    AbandonKeeps(o, c, u, past);
  }

  /** The thread's last act: seal the segment if the storage is healthy. */
  function FinishStep(o: Oracle, c: Config, s: Segments, ghost past: seq<seq<Byte>>): Segments
    requires c.Valid() && Inv(c, s, past)
  {
    if !s.open then s.(stopped := true)
    else
      var (t, sealed) := Seal(o, s);
      var (u, ok) := if sealed then Retention(o, c, t, 0, 0) else (t, false);
      FinishRetains(o, c, s, past, t, sealed, u, ok);
      if ok then u.(stopped := true) else Abandon(o, u).(stopped := true)
  }

  lemma FinishRetains(o: Oracle, c: Config, s: Segments, past: seq<seq<Byte>>, t: Segments, sealed: bool,
                      u: Segments, ok: bool)
    requires Inv(c, s, past) && s.open && (t, sealed) == Seal(o, s)
    requires (u, ok) == if sealed then Retention(o, c, t, 0, 0) else (t, false)
    ensures Core(c, u, past) && u.written == s.written
    ensures ok ==> !u.open && !u.active && u.unsynced == 0
  {
    SealKeeps(o, c, s, past, t, sealed);
    if sealed {
      RetentionCore(o, c, t, 0, 0, past, u, ok);
    }
  }

  /** After the thread has ended nothing written is left in doubt uncounted: it is synced or given up. */
  lemma FinishStepKeeps(o: Oracle, c: Config, s: Segments, past: seq<seq<Byte>>)
    requires c.Valid() && Inv(c, s, past)
    ensures var t := FinishStep(o, c, s, past);
            && Inv(c, t, past) && t.stopped && t.written == s.written
            && t.written == t.synced + t.abandoned
  {
    if s.open {
      var (t, sealed) := Seal(o, s);
      var (u, ok) := if sealed then Retention(o, c, t, 0, 0) else (t, false);
      FinishRetains(o, c, s, past, t, sealed, u, ok);
      AbandonKeeps(o, c, u, past);
      var f := FinishStep(o, c, s, past);
      CoreFrame(c, if ok then u else Abandon(o, u), f, past);
    } else {
      CoreFrame(c, s, s.(stopped := true), past);
    }
  }

  lemma RecoverStepKeeps(o: Oracle, c: Config, s: Segments, past: seq<seq<Byte>>)
    requires c.Valid() && Inv(c, s, past) && !s.healthy && !s.stopped
    ensures Inv(c, RecoverStep(o, c, s, past), past)
    ensures RecoverStep(o, c, s, past).written == s.written && !RecoverStep(o, c, s, past).stopped
  {
    var (t, ok) := Recover(o, c, s);
    RecoverKeeps(o, c, s, past, t, ok);
    AbandonKeeps(o, c, t, past);
  }
}
