/** The writer thread's storage as the program keeps it: one active segment and its counters, updated
    in place around calls that may fail. */
module FeedbackStore {
  import opened Wire
  import opened FeedbackSegments
  import I = FeedbackIntegrity
  import S = FeedbackSteps
  import F = FeedbackFaults

  class SegmentStore {
    const config: Config
    const oracle: Oracle
    var files: seq<File>
    var active: bool
    var open: bool
    var activeBytes: nat
    var generation: nat
    var healthy: bool
    var stopped: bool
    var written: nat
    var synced: nat
    var unsynced: nat
    var uncertain: nat
    ghost var torn: nat
    ghost var abandoned: nat
    var calls: nat

    ghost function Value(): Segments
      reads this
    {
      Segments(files, active, open, activeBytes, generation, healthy, stopped, written, synced, unsynced, uncertain,
               torn, abandoned, calls)
    }

    constructor (c: Config, o: Oracle, found: seq<File>)
      ensures config == c && oracle == o
      ensures Value() == Segments(found, false, false, 0, 0, false, false, 0, 0, 0, 0, 0, 0, 0)
    {
      config, oracle, files := c, o, found;
      active, open, activeBytes, generation, healthy, stopped := false, false, 0, 0, false, false;
      written, synced, unsynced, uncertain, calls := 0, 0, 0, 0, 0;
      torn, abandoned := 0, 0;
    }

    /** One storage call. */
    method Call() returns (a: Answer)
      modifies `calls
      ensures a == oracle(old(calls)) && calls == old(calls) + 1
    {
      a := oracle(calls);
      calls := calls + 1;
    }

    /** Total size and the oldest file that may be deleted. */
    method Catalog() returns (bytes: nat, oldest: int)
      ensures bytes == TotalBytes(files) && oldest == Oldest(files, |files|)
    {
      bytes, oldest := 0, -1;
      for n := 0 to |files|
        invariant bytes == TotalBytes(files[..n]) && oldest == Oldest(files, n)
      {
        assert Front(files[..n + 1]) == files[..n];
        bytes := bytes + |files[n].content|;
        if !files[n].kind.Active? && (oldest < 0 || files[n].mtime < files[oldest].mtime) {
          oldest := n;
        }
      }
      assert files[..|files|] == files;
    }

    /** Count a file's records, delete it and sync the directory; false as soon as a call fails. */
    method Delete(i: nat) returns (ok: bool)
      requires i < |files|
      modifies `files, `calls
      ensures var p := FeedbackSegments.Delete(oracle, old(files), i, old(calls));
              files == p.files && calls == p.calls && ok == p.Again?
    {
      var counted := Call();
      if !counted.ok {
        return false;
      }
      var removed := Call();
      if !removed.ok {
        return false;
      }
      files := files[..i] + files[i + 1..];
      var directory := Call();
      ok := directory.ok;
    }

    method RetainPass(extraBytes: nat, extraSegments: nat) returns (again: bool, ok: bool)
      modifies `files, `calls
      ensures var p := RetainOnce(oracle, config, old(files), old(calls), extraBytes, extraSegments);
              files == p.files && calls == p.calls && again == p.Again? && ok == p.Enough?
    {
      var first := Call();
      if !first.ok {
        return false, false;
      }
      var bytes, oldest := Catalog();
      var second := Call();
      var expired := oldest >= 0 && first.now >= files[oldest].mtime &&
                     second.now - files[oldest].mtime >= config.retentionAge;
      var over := bytes > config.retentionBytes - extraBytes || |files| > config.maxSegments - extraSegments;
      if !expired && !over {
        return false, true;
      }
      if oldest < 0 {
        return false, false;
      }
      again := Delete(oldest);
      ok := false;
    }

    /** Delete the oldest files until the limits hold; false as soon as a call fails. */
    method Retention(extraBytes: nat, extraSegments: nat) returns (ok: bool)
      modifies `files, `calls
      ensures (Value(), ok) == FeedbackSegments.Retention(oracle, config, old(Value()), extraBytes, extraSegments)
    {
      var again := true;
      ok := false;
      ghost var all := Retain(oracle, config, files, calls, extraBytes, extraSegments);
      while again
        invariant if again then Retain(oracle, config, files, calls, extraBytes, extraSegments) == all
                  else files == all.files && calls == all.calls && ok == all.Enough?
        decreases again, |files|
      {
        again, ok := RetainPass(extraBytes, extraSegments);
      }
    }

    method OpenSegment() returns (ok: bool)
      modifies this
      ensures (Value(), ok) == FeedbackSegments.OpenSegment(oracle, config, old(Value()))
    {
      ok := Retention(0, 1);
      if !ok || generation == MAX_GENERATION {
        return false;
      }
      generation := generation + 1;
      var created := Call();
      if !created.ok {
        active := false;
        return false;
      }
      Create(created.now);
      var synced := Call();
      ok := synced.ok;
    }

    /** A new, empty active segment. */
    method Create(now: int)
      modifies `files, `active, `open, `activeBytes, `unsynced
      ensures Value() == Created(old(Value()), now)
    {
      files := files + [File(Active, true, [], now, [])];
      active, open, activeBytes, unsynced := true, true, 0, 0;
    }

    method SyncActive() returns (ok: bool)
      modifies this
      ensures (Value(), ok) == FeedbackSegments.SyncActive(oracle, old(Value()))
    {
      if !open {
        return true;
      }
      var a := Call();
      if !a.ok {
        return false;
      }
      synced := synced + unsynced;
      unsynced := 0;
      ok := true;
    }

    method Rename(kind: Kind)
      requires files != []
      modifies `files, `active
      ensures Value() == Renamed(old(Value()), kind)
    {
      files := Front(files) + [Last(files).(kind := kind)];
      active := false;
    }

    method Seal() returns (ok: bool)
      requires files != []
      modifies this
      ensures (Value(), ok) == FeedbackSegments.Seal(oracle, old(Value()))
    {
      ok := SyncActive();
      if !ok {
        return;
      }
      open := false;
      var closed := Call();
      if !closed.ok {
        return false;
      }
      var renamed := Call();
      if !renamed.ok {
        return false;
      }
      Rename(Sealed);
      activeBytes := 0;
      var directory := Call();
      ok := directory.ok;
    }

    method Abandon()
      requires active ==> files != []
      modifies this
      ensures Value() == FeedbackSegments.Abandon(oracle, old(Value()))
    {
      GiveUp();
      if active {
        var renamed := Call();
        if renamed.ok {
          Rename(Suspect);
        }
      }
    }

    method GiveUp()
      modifies `healthy, `uncertain, `abandoned, `unsynced, `open, `calls
      ensures Value() == GivenUp(old(Value()))
    {
      healthy := false;
      uncertain := uncertain + unsynced;
      abandoned := abandoned + unsynced;
      unsynced := 0;
      if open {
        var closed := Call();
        open := false;
      }
    }

    method Recover() returns (ok: bool)
      requires active ==> files != []
      modifies this
      ensures (Value(), ok) == FeedbackSegments.Recover(oracle, config, old(Value()))
    {
      ok := SetAside();
      if ok {
        ok := OpenSegment();
        if ok {
          healthy := true;
        }
      }
    }

    /** Rename a segment that is still active; nothing to do when there is none. */
    method SetAside() returns (ok: bool)
      requires active ==> files != []
      modifies `files, `active, `calls
      ensures ok == (!old(active) || oracle(old(calls)).ok)
      ensures Value() == if !old(active) then old(Value())
                         else Called(if ok then Renamed(old(Value()), Suspect) else old(Value()), 1)
    {
      ok := true;
      if active {
        var renamed := Call();
        ok := renamed.ok;
        if ok {
          Rename(Suspect);
        }
      }
    }

    /** Write a record from where the last write stopped; a failed write leaves it torn. */
    method WriteRecord(record: seq<Byte>) returns (ok: bool)
      requires files != []
      modifies this
      ensures (Value(), ok) == WriteAll(oracle, old(Value()), record)
    {
      var offset, failed := 0, false;
      assert record[0..] == record;
      while !failed && offset < |record|
        invariant offset <= |record| && files != []
        invariant if failed then (Value(), false) == WriteAll(oracle, old(Value()), record)
                  else WriteAll(oracle, Value(), record[offset..]) == WriteAll(oracle, old(Value()), record)
        decreases !failed, |record| - offset
      {
        var n := WriteSome(record[offset..]);
        assert record[offset..][n..] == record[offset + n..];
        offset, failed := offset + n, n == 0;
      }
      ok := !failed;
    }

    /** One write: how much of the bytes was written, 0 when it failed. */
    method WriteSome(left: seq<Byte>) returns (n: nat)
      requires files != [] && left != []
      modifies this
      ensures n <= |left| && files != []
      ensures WriteAll(oracle, old(Value()), left)
           == if n == 0 then (Value(), false) else WriteAll(oracle, Value(), left[n..])
    {
      var a := Call();
      if a.count == 0 {
        uncertain := uncertain + 1;
        torn := torn + 1;
        return 0;
      }
      n := AtMost(a.count, |left|);
      Extend(left[..n], a.now);
    }

    method Extend(bytes: seq<Byte>, now: int)
      requires files != []
      modifies `files, `activeBytes
      ensures files != [] && Value() == Extended(old(Value()), bytes, now)
    {
      var f := Last(files);
      files := Front(files) + [f.(content := f.content + bytes, mtime := now)];
      activeBytes := activeBytes + |bytes|;
    }

    method Prepare(size: nat) returns (ok: bool)
      requires files != []
      modifies this
      ensures (Value(), ok) == FeedbackSegments.Prepare(oracle, config, old(Value()), size)
    {
      if size > config.segmentBytes - activeBytes {
        ok := Seal();
        if !ok {
          return;
        }
        ok := OpenSegment();
        if !ok {
          return;
        }
      }
      ok := Retention(size, 0);
    }

    method AppendRecord(r: Rec, ghost past: seq<seq<Byte>>) returns (ok: bool)
      requires config.Valid() && I.Inv(config, Value(), past) && open && |r.text| <= config.segmentBytes
      modifies this
      ensures (Value(), ok) == S.Append(oracle, config, old(Value()), r, past)
    {
      ghost var p := FeedbackSegments.Prepare(oracle, config, Value(), |r.text|);
      S.PrepareKeeps(oracle, config, Value(), |r.text|, past, p.0, p.1);
      ok := Prepare(|r.text|);
      if ok {
        ghost var w := WriteAll(oracle, Value(), r.text);
        S.WriteGrows(oracle, Value(), r.text, w.0, w.1);
        ok := WriteRecord(r.text);
        if ok {
          Log(r);
        }
      }
    }

    method Log(r: Rec)
      requires files != []
      modifies `files, `written, `unsynced
      ensures Value() == Logged(old(Value()), r)
    {
      files := Front(files) + [Last(files).(records := Last(files).records + [r])];
      written := written + 1;
      unsynced := unsynced + 1;
    }

    /** Append one record; on any failure the segment is given up. */
    method Append(r: Rec, ghost past: seq<seq<Byte>>) returns (ok: bool)
      requires config.Valid() && I.Inv(config, Value(), past) && open
      requires |r.text| <= config.segmentBytes && |past| == r.index
      modifies this
      ensures (Value(), ok) == S.AppendStep(oracle, config, old(Value()), r, past)
      ensures I.Inv(config, Value(), past + [r.text])
    {
      S.AppendStepKeeps(oracle, config, Value(), r, past);
      ghost var a := S.Append(oracle, config, Value(), r, past);
      S.AppendKeeps(oracle, config, Value(), r, past, a.0, a.1);
      ok := AppendRecord(r, past);
      if !ok {
        Abandon();
      }
    }

    /** Set aside the segments an earlier writer left active. */
    method QuarantineFound() returns (ok: bool)
      modifies `files, `calls
      ensures var p := F.Quarantine(oracle, old(files), 0, old(calls));
              files == p.files && calls == p.calls && ok == p.Enough?
    {
      ghost var all := F.Quarantine(oracle, files, 0, calls);
      var n := 0;
      while n < |files|
        invariant n <= |files| && F.Quarantine(oracle, files, n, calls) == all
        decreases |files| - n
      {
        if files[n].kind.Active? {
          var renamed := Call();
          if !renamed.ok {
            return false;
          }
          files := files[n := files[n].(kind := Suspect)];
        }
        n := n + 1;
      }
      ok := true;
    }

    /** Set aside, retain, open: the writer exists only when all of it succeeds. */
    method StartUp() returns (ok: bool)
      requires Value() == F.Fresh(files, 0)
      modifies this
      ensures (Value(), ok) == F.Start(oracle, config, old(files))
    {
      ok := QuarantineFound();
      if !ok {
        return;
      }
      var directory := Call();
      if !directory.ok {
        return false;
      }
      ok := Retention(0, 0);
      if !ok {
        return;
      }
      ok := OpenSegment();
      healthy := ok;
    }

    /** Try to store again after a failure. */
    method TryRecover(ghost past: seq<seq<Byte>>)
      requires config.Valid() && I.Inv(config, Value(), past) && !healthy && !stopped
      modifies this
      ensures Value() == S.RecoverStep(oracle, config, old(Value()), past) && I.Inv(config, Value(), past)
    {
      S.RecoverStepKeeps(oracle, config, Value(), past);
      ghost var r := FeedbackSegments.Recover(oracle, config, Value());
      S.RecoverKeeps(oracle, config, Value(), past, r.0, r.1);
      var ok := Recover();
      if !ok {
        Abandon();
      }
    }

    /** The periodic sync and retention. */
    method SyncAndRetain(ghost past: seq<seq<Byte>>)
      requires config.Valid() && I.Inv(config, Value(), past) && open
      modifies this
      ensures Value() == S.SyncStep(oracle, config, old(Value()), past) && I.Inv(config, Value(), past)
    {
      S.SyncStepKeeps(oracle, config, Value(), past);
      ghost var t := FeedbackSegments.SyncActive(oracle, Value());
      ghost var u := if t.1 then FeedbackSegments.Retention(oracle, config, t.0, 0, 0) else (t.0, false);
      S.SyncRetains(oracle, config, Value(), past, t.0, t.1, u.0, u.1);
      var ok := SyncActive();
      if ok {
        ok := Retention(0, 0);
      }
      if !ok {
        Abandon();
      }
    }

    /** The thread's last act. */
    method Finish(ghost past: seq<seq<Byte>>)
      requires config.Valid() && I.Inv(config, Value(), past) && !stopped
      modifies this
      ensures Value() == S.FinishStep(oracle, config, old(Value()), past) && I.Inv(config, Value(), past)
    {
      S.FinishStepKeeps(oracle, config, Value(), past);
      if healthy {
        ghost var t := FeedbackSegments.Seal(oracle, Value());
        ghost var u := if t.1 then FeedbackSegments.Retention(oracle, config, t.0, 0, 0) else (t.0, false);
        S.FinishRetains(oracle, config, Value(), past, t.0, t.1, u.0, u.1);
        var ok := Seal();
        if ok {
          ok := Retention(0, 0);
        }
        if !ok {
          Abandon();
        }
      }
      stopped := true;
    }
  }
}
