/** What every storage step of the feedback writer keeps, whichever calls fail. */
module FeedbackIntegrity {
  import opened Wire
  import opened FeedbackSegments

  // ----- invariants -----

  /** The file holds exactly its records, each whole. */
  ghost predicate Whole(f: File) {
    f.content == Concat(f.records)
  }

  ghost predicate FileOk(c: Config, f: File) {
    f.own ==> |f.content| <= c.segmentBytes && (f.kind.Sealed? ==> Whole(f))
  }

  function Flat(files: seq<File>): seq<Rec> {
    if files == [] then [] else Flat(Front(files)) + Last(files).records
  }

  /** Admission order. */
  ghost predicate Increasing(rs: seq<Rec>) {
    forall i, j :: 0 <= i < j < |rs| ==> rs[i].index < rs[j].index
  }

  /** Each record is the one admitted at its place; `past` is what was taken from the queue. */
  ghost predicate Below(rs: seq<Rec>, past: seq<seq<Byte>>) {
    forall r :: r in rs ==> r.index < |past| && past[r.index] == r.text
  }

  ghost predicate FilesOk(c: Config, files: seq<File>, past: seq<seq<Byte>>) {
    && (forall f :: f in files ==> FileOk(c, f))
    && Increasing(Flat(files))
    && Below(Flat(files), past)
  }

  ghost predicate LastActive(files: seq<File>) {
    forall i :: 0 <= i < |files| - 1 ==> !files[i].kind.Active?
  }

  /** Only the last file can be active, and it is as long as its count says. */
  ghost predicate Placed(s: Segments) {
    && LastActive(s.files)
    && (s.active ==> s.files != [] && Last(s.files).kind.Active? && Last(s.files).own
                     && |Last(s.files).content| == s.activeBytes)
    && (!s.active ==> s.files == [] || !Last(s.files).kind.Active?)
    && (s.open ==> s.active)
  }

  ghost predicate WholeActive(s: Segments) {
    s.open && s.files != [] ==> Whole(Last(s.files))
  }

  /** Every written record is synced, still to be synced, or given up; only given up and torn
      records are uncertain. */
  ghost predicate Balanced(s: Segments) {
    s.written == s.synced + s.unsynced + s.abandoned && s.uncertain == s.abandoned + s.torn
  }

  ghost predicate Limits(c: Config, files: seq<File>) {
    TotalBytes(files) <= c.retentionBytes && |files| <= c.maxSegments
  }

  /** What holds even after a storage call has failed and before the segment is given up. */
  ghost predicate Core(c: Config, s: Segments, past: seq<seq<Byte>>) {
    Placed(s) && FilesOk(c, s.files, past) && Balanced(s) && Limits(c, s.files)
  }

  ghost predicate Inv(c: Config, s: Segments, past: seq<seq<Byte>>) {
    && Core(c, s, past) && WholeActive(s)
    && (s.healthy && !s.stopped <==> s.open)
    && (!s.open ==> s.unsynced == 0)
  }

  // ----- sequences of files -----

  lemma Rejoin(files: seq<File>)
    requires files != []
    ensures files == Front(files) + [Last(files)]
  {
  }

  lemma JoinedFiles(a: seq<File>, b: seq<File>)
    ensures b == [] ==> a + b == a
    ensures b != [] ==> Front(a + b) == a + Front(b) && Last(a + b) == Last(b)
  {
  }

  lemma {:induction false} FlatJoin(a: seq<File>, b: seq<File>)
    ensures Flat(a + b) == Flat(a) + Flat(b)
  {
    JoinedFiles(a, b);
    if b != [] {
      FlatJoin(a, Front(b));
    }
  }

  lemma {:induction false} TotalJoin(a: seq<File>, b: seq<File>)
    ensures TotalBytes(a + b) == TotalBytes(a) + TotalBytes(b)
  {
    JoinedFiles(a, b);
    if b != [] {
      TotalJoin(a, Front(b));
    }
  }

  lemma FlatOne(f: File)
    ensures Flat([f]) == f.records && TotalBytes([f]) == |f.content|
  {
    assert Front([f]) == [];
  }

  /** Deleting a file deletes its records and its bytes. */
  lemma {:induction false} WithoutParts(files: seq<File>, i: nat)
    requires i < |files|
    ensures var pre, post := files[..i], files[i + 1..];
            && Flat(files) == Flat(pre) + files[i].records + Flat(post)
            && Flat(Without(files, i)) == Flat(pre) + Flat(post)
    ensures TotalBytes(files) == TotalBytes(Without(files, i)) + |files[i].content|
  {
    var pre, post := files[..i], files[i + 1..];
    assert files == pre + [files[i]] + post;
    FlatJoin(pre + [files[i]], post);
    FlatJoin(pre, [files[i]]);
    FlatJoin(pre, post);
    FlatOne(files[i]);
    TotalJoin(pre + [files[i]], post);
    TotalJoin(pre, [files[i]]);
    TotalJoin(pre, post);
  }

  lemma IncreasingParts(a: seq<Rec>, m: seq<Rec>, b: seq<Rec>, past: seq<seq<Byte>>)
    requires Increasing(a + m + b) && Below(a + m + b, past)
    ensures Increasing(a + b) && Below(a + b, past)
  {
    var whole, n := a + m + b, |m|;
    forall i, j | 0 <= i < j < |a + b|
      ensures (a + b)[i].index < (a + b)[j].index
    {
      var p := if i < |a| then i else i + n;
      var q := if j < |a| then j else j + n;
      assert (a + b)[i] == whole[p] && (a + b)[j] == whole[q];
    }
    forall r | r in a + b
      ensures r.index < |past| && past[r.index] == r.text
    {
      assert r in whole;
    }
  }

  lemma WithoutOk(c: Config, files: seq<File>, i: nat, past: seq<seq<Byte>>)
    requires FilesOk(c, files, past) && i < |files|
    ensures FilesOk(c, Without(files, i), past)
  {
    WithoutParts(files, i);
    IncreasingParts(Flat(files[..i]), files[i].records, Flat(files[i + 1..]), past);
  }

  /** Replacing the last file by one with the same records. */
  lemma {:induction false} ReplaceLast(c: Config, files: seq<File>, f: File, past: seq<seq<Byte>>)
    requires files != [] && FilesOk(c, files, past) && FileOk(c, f) && f.records == Last(files).records
    ensures FilesOk(c, Front(files) + [f], past)
    ensures TotalBytes(Front(files) + [f]) == TotalBytes(files) - |Last(files).content| + |f.content|
  {
    var t := Front(files) + [f];
    assert Front(t) == Front(files) && Last(t) == f;
  }

  // ----- retention -----

  /** Only deletions happened, and never of the active segment. */
  ghost predicate Thinned(c: Config, files: seq<File>, t: seq<File>, past: seq<seq<Byte>>) {
    && LastActive(t) && FilesOk(c, t, past)
    && (files != [] && Last(files).kind.Active? ==> t != [] && Last(t) == Last(files))
    && (t != [] ==> files != [] && (Last(t).kind.Active? ==> Last(files).kind.Active?))
    && TotalBytes(t) <= TotalBytes(files) && |t| <= |files|
  }

  lemma ThinnedSelf(c: Config, files: seq<File>, past: seq<seq<Byte>>)
    requires LastActive(files) && FilesOk(c, files, past)
    ensures Thinned(c, files, files, past)
  {
  }

  lemma ThinnedOnce(c: Config, files: seq<File>, i: nat, past: seq<seq<Byte>>)
    requires LastActive(files) && FilesOk(c, files, past) && i < |files| && !files[i].kind.Active?
    ensures Thinned(c, files, Without(files, i), past)
  {
    WithoutOk(c, files, i, past);
    WithoutParts(files, i);
  }

  lemma RetainOnceKeeps(o: Oracle, c: Config, files: seq<File>, calls: nat, extraBytes: nat, extraSegments: nat,
                        past: seq<seq<Byte>>, p: Pass)
    requires LastActive(files) && FilesOk(c, files, past)
    requires p == RetainOnce(o, c, files, calls, extraBytes, extraSegments)
    ensures Thinned(c, files, p.files, past) && calls < p.calls
    ensures p.Enough? ==> !Over(c, p.files, extraBytes, extraSegments)
  {
    ThinnedSelf(c, files, past);
    var oldest := Oldest(files, |files|);
    if !p.Enough? && oldest >= 0 && o(calls).ok {
      DeleteKeeps(o, c, files, oldest, calls + 2, past, p);
    }
  }

  lemma DeleteKeeps(o: Oracle, c: Config, files: seq<File>, i: nat, calls: nat, past: seq<seq<Byte>>, p: Pass)
    requires LastActive(files) && FilesOk(c, files, past) && i < |files| && !files[i].kind.Active?
    requires p == Delete(o, files, i, calls)
    ensures Thinned(c, files, p.files, past) && calls < p.calls && !p.Enough?
    ensures p.Failed? ==> !o(p.calls - 1).ok
  {
    ThinnedSelf(c, files, past);
    ThinnedOnce(c, files, i, past);
  }

  lemma {:induction false} RetainKeeps(o: Oracle, c: Config, files: seq<File>, calls: nat, extraBytes: nat,
                                       extraSegments: nat, past: seq<seq<Byte>>, p: Pass)
    requires LastActive(files) && FilesOk(c, files, past)
    requires p == Retain(o, c, files, calls, extraBytes, extraSegments)
    ensures Thinned(c, files, p.files, past) && calls < p.calls
    ensures p.Enough? ==> !Over(c, p.files, extraBytes, extraSegments)
    decreases |files|
  {
    var once := RetainOnce(o, c, files, calls, extraBytes, extraSegments);
    RetainOnceKeeps(o, c, files, calls, extraBytes, extraSegments, past, once);
    if once.Again? {
      RetainKeeps(o, c, once.files, once.calls, extraBytes, extraSegments, past, p);
    }
  }

  /** With what the active segment holds within the limits, some other file can always go. */
  ghost predicate Deletable(c: Config, files: seq<File>, extraBytes: nat, extraSegments: nat) {
    && extraBytes <= c.retentionBytes && extraSegments <= c.maxSegments
    && (files != [] && Last(files).kind.Active? ==>
          |Last(files).content| + extraBytes <= c.retentionBytes && extraSegments < c.maxSegments)
  }

  lemma FirstNotActive(files: seq<File>)
    requires LastActive(files) && |files| > 1
    ensures !files[0].kind.Active?
  {
  }

  lemma OnlyActive(c: Config, files: seq<File>, extraBytes: nat, extraSegments: nat)
    requires LastActive(files) && forall j :: 0 <= j < |files| ==> files[j].kind.Active?
    requires Deletable(c, files, extraBytes, extraSegments)
    ensures !Over(c, files, extraBytes, extraSegments)
  {
    if |files| > 1 {
      FirstNotActive(files);
      assert false;
    }
    if files != [] {
      assert files == [Last(files)];
      FlatOne(Last(files));
    }
  }

  lemma RetainOnceNeverStuck(o: Oracle, c: Config, files: seq<File>, calls: nat, extraBytes: nat, extraSegments: nat,
                             p: Pass)
    requires LastActive(files) && Deletable(c, files, extraBytes, extraSegments)
    requires p == RetainOnce(o, c, files, calls, extraBytes, extraSegments)
    ensures calls < p.calls
    ensures p.Failed? ==> !o(p.calls - 1).ok
    ensures p.Again? ==> LastActive(p.files) && Deletable(c, p.files, extraBytes, extraSegments)
  {
    var oldest := Oldest(files, |files|);
    if oldest < 0 {
      OnlyActive(c, files, extraBytes, extraSegments);
    } else if !p.Enough? && o(calls).ok {
      DeleteNeverStuck(o, c, files, oldest, calls + 2, extraBytes, extraSegments, p);
    }
  }

  lemma DeleteNeverStuck(o: Oracle, c: Config, files: seq<File>, i: nat, calls: nat, extraBytes: nat,
                         extraSegments: nat, p: Pass)
    requires LastActive(files) && Deletable(c, files, extraBytes, extraSegments)
    requires i < |files| && !files[i].kind.Active? && p == Delete(o, files, i, calls)
    ensures calls < p.calls && !p.Enough?
    ensures p.Failed? ==> !o(p.calls - 1).ok
    ensures p.Again? ==> LastActive(p.files) && Deletable(c, p.files, extraBytes, extraSegments)
  {
  }

  /** Retention never fails for want of a file to delete: it stops only at a call that failed. */
  lemma {:induction false} RetentionNeverStuck(o: Oracle, c: Config, files: seq<File>, calls: nat, extraBytes: nat,
                                               extraSegments: nat, p: Pass)
    requires LastActive(files) && Deletable(c, files, extraBytes, extraSegments)
    requires p == Retain(o, c, files, calls, extraBytes, extraSegments)
    ensures calls < p.calls
    ensures p.Enough? || !o(p.calls - 1).ok
    decreases |files|
  {
    var once := RetainOnce(o, c, files, calls, extraBytes, extraSegments);
    RetainOnceNeverStuck(o, c, files, calls, extraBytes, extraSegments, once);
    if once.Again? {
      RetentionNeverStuck(o, c, once.files, once.calls, extraBytes, extraSegments, p);
    }
  }

  // ----- segments -----

  lemma RetentionCore(o: Oracle, c: Config, s: Segments, extraBytes: nat, extraSegments: nat, past: seq<seq<Byte>>,
                      t: Segments, ok: bool)
    requires Placed(s) && FilesOk(c, s.files, past)
    requires (t, ok) == Retention(o, c, s, extraBytes, extraSegments)
    ensures t == s.(files := t.files, calls := t.calls) && s.calls < t.calls
    ensures Placed(t) && FilesOk(c, t.files, past)
    ensures s.active ==> Last(t.files) == Last(s.files)
    ensures Limits(c, s.files) ==> Limits(c, t.files)
    ensures ok ==> !Over(c, t.files, extraBytes, extraSegments)
  {
    RetainKeeps(o, c, s.files, s.calls, extraBytes, extraSegments, past,
                Retain(o, c, s.files, s.calls, extraBytes, extraSegments));
  }

  /** A file added at the end. */
  lemma {:induction false} AddLast(c: Config, files: seq<File>, f: File, past: seq<seq<Byte>>)
    requires FilesOk(c, files, past) && FileOk(c, f) && f.records == []
    ensures FilesOk(c, files + [f], past)
    ensures TotalBytes(files + [f]) == TotalBytes(files) + |f.content|
  {
    var t := files + [f];
    assert Front(t) == files && Last(t) == f;
  }

  /** A new segment is opened only within the limits, empty. */
  lemma OpenSegmentKeeps(o: Oracle, c: Config, s: Segments, past: seq<seq<Byte>>, t: Segments, ok: bool)
    requires c.Valid() && Placed(s) && FilesOk(c, s.files, past) && Balanced(s) && !s.active && s.unsynced == 0
    requires (t, ok) == OpenSegment(o, c, s)
    ensures Placed(t) && FilesOk(c, t.files, past) && Balanced(t)
    ensures Limits(c, s.files) || ok ==> Limits(c, t.files)
    ensures t.unsynced == 0 && t.written == s.written && t.healthy == s.healthy && t.stopped == s.stopped
    ensures ok ==> t.open && t.activeBytes == 0 && t.files != [] && Whole(Last(t.files))
    ensures s.calls < t.calls
  {
    var (r, kept) := Retention(o, c, s, 0, 1);
    RetentionCore(o, c, s, 0, 1, past, r, kept);
    if kept && o(r.calls).ok {
      AddLast(c, r.files, File(Active, true, [], o(r.calls).now, []), past);
    }
  }

  lemma SyncKeeps(o: Oracle, s: Segments, t: Segments, ok: bool)
    requires (t, ok) == SyncActive(o, s) && Balanced(s)
    ensures t == s.(synced := t.synced, unsynced := t.unsynced, calls := t.calls) && Balanced(t) && s.calls <= t.calls
    ensures ok && s.open ==> t.unsynced == 0
  {
  }

  lemma RenamedKeeps(c: Config, s: Segments, kind: Kind, past: seq<seq<Byte>>)
    requires Placed(s) && FilesOk(c, s.files, past) && s.active && !kind.Active?
    requires kind.Sealed? ==> Whole(Last(s.files))
    ensures var t := Renamed(s, kind).(open := false);
            Placed(t) && FilesOk(c, t.files, past) && (Limits(c, s.files) ==> Limits(c, t.files))
  {
    assert Last(s.files) in s.files;
    ReplaceLast(c, s.files, Last(s.files).(kind := kind), past);
  }

  /** A segment is sealed only when it is whole and synced. */
  lemma SealKeeps(o: Oracle, c: Config, s: Segments, past: seq<seq<Byte>>, t: Segments, ok: bool)
    requires Core(c, s, past) && s.open && Whole(Last(s.files)) && (t, ok) == Seal(o, s)
    ensures Core(c, t, past) && t.written == s.written && t.healthy == s.healthy && t.stopped == s.stopped
    ensures ok ==> !t.open && !t.active && t.unsynced == 0
    ensures s.calls < t.calls
  {
    var (r, synced) := SyncActive(o, s);
    SyncKeeps(o, s, r, synced);
    if synced && o(r.calls).ok && o(r.calls + 1).ok {
      RenamedKeeps(c, r, Sealed, past);
    } else {
      CoreFrame(c, s, t, past);
    }
  }

  lemma CoreFrame(c: Config, s: Segments, t: Segments, past: seq<seq<Byte>>)
    requires Core(c, s, past) && Balanced(t) && (t.open ==> s.open)
    requires t.files == s.files && t.active == s.active && t.activeBytes == s.activeBytes
    ensures Core(c, t, past)
  {
  }

  /** Giving up restores the invariant from any state a failed call can leave. */
  lemma AbandonKeeps(o: Oracle, c: Config, s: Segments, past: seq<seq<Byte>>)
    requires Core(c, s, past)
    ensures Inv(c, Abandon(o, s), past)
    ensures Abandon(o, s).written == s.written && !Abandon(o, s).healthy && Abandon(o, s).stopped == s.stopped
  {
    if s.active {
      RenamedKeeps(c, s, Suspect, past);
    }
  }
}
