/** The feedback writer's segment files under arbitrary storage faults. Every storage call is
    answered by an oracle, so a statement for all oracles is a statement for all faults. */
module FeedbackSegments {
  import opened Wire

  const MAX_GENERATION := TWO_64 - 1

  datatype Config = Config(bufferRecords: nat, bufferBytes: nat, maxEventBytes: nat, segmentBytes: nat,
                           retentionBytes: nat, retentionAge: nat, maxSegments: nat)
  {
    predicate Valid() {
      && 1 <= bufferRecords && 1 <= maxSegments && 1 <= maxEventBytes && 1 <= retentionAge
      && maxEventBytes < bufferBytes && maxEventBytes < segmentBytes <= retentionBytes
    }
  }

  /** One storage call's answer: whether it succeeded, how much it wrote, and the wall clock. */
  datatype Answer = Answer(ok: bool, count: nat, now: int)

  type Oracle = nat -> Answer

  datatype Kind = Active | Sealed | Suspect

  /** An admitted record: its place in admission order and its bytes. */
  datatype Rec = Rec(index: nat, text: seq<Byte>)

  /** `records` is history: the whole records appended to a segment of this writer. */
  datatype File = File(kind: Kind, own: bool, content: seq<Byte>, mtime: int, records: seq<Rec>)

  /** `calls` counts storage calls; `torn` and `abandoned` are history. Files are in creation order,
      so the active segment, when there is one, is the last. */
  datatype Segments = Segments(files: seq<File>, active: bool, open: bool, activeBytes: nat, generation: nat,
                               healthy: bool, stopped: bool, written: nat, synced: nat, unsynced: nat,
                               uncertain: nat, torn: nat, abandoned: nat, calls: nat)

  function Last<T>(s: seq<T>): T
    requires s != []
  {
    s[|s| - 1]
  }

  function Front<T>(s: seq<T>): seq<T>
    requires s != []
  {
    s[..|s| - 1]
  }

  function Concat(rs: seq<Rec>): seq<Byte> {
    if rs == [] then [] else Concat(Front(rs)) + Last(rs).text
  }

  function TotalBytes(files: seq<File>): nat {
    if files == [] then 0 else TotalBytes(Front(files)) + |Last(files).content|
  }

  /** The first of the oldest files that may be deleted, among the first n. */
  function Oldest(files: seq<File>, n: nat): (i: int)
    requires n <= |files|
    ensures -1 <= i < n
    ensures i >= 0 ==> !files[i].kind.Active?
    ensures i >= 0 ==> forall j :: 0 <= j < n && !files[j].kind.Active? ==> files[i].mtime <= files[j].mtime
    ensures i < 0 ==> forall j :: 0 <= j < n ==> files[j].kind.Active?
  {
    if n == 0 then -1
    else
      var i := Oldest(files, n - 1);
      if !files[n - 1].kind.Active? && (i < 0 || files[n - 1].mtime < files[i].mtime) then n - 1 else i
  }

  // ----- retention -----

  predicate Expired(c: Config, f: File, first: Answer, second: Answer) {
    first.now >= f.mtime && second.now - f.mtime >= c.retentionAge
  }

  predicate Over(c: Config, files: seq<File>, extraBytes: nat, extraSegments: nat) {
    TotalBytes(files) > c.retentionBytes - extraBytes || |files| > c.maxSegments - extraSegments
  }

  function Without(files: seq<File>, i: nat): seq<File>
    requires i < |files|
  {
    files[..i] + files[i + 1..]
  }

  function Called(s: Segments, n: nat): Segments {
    s.(calls := s.calls + n)
  }

  /** Where a pass over the directory leaves it, and how many calls were made by then. */
  datatype Pass = Enough(files: seq<File>, calls: nat) | Failed(files: seq<File>, calls: nat)
                | Again(files: seq<File>, calls: nat)

  /** One pass over the directory: enough, one deletion, or a failed call. */
  function RetainOnce(o: Oracle, c: Config, files: seq<File>, calls: nat, extraBytes: nat,
                      extraSegments: nat): (p: Pass)
    ensures p.Again? ==> |p.files| < |files|
  {
    var oldest := Oldest(files, |files|);
    if !o(calls).ok then Failed(files, calls + 1)
    else
      var expired := oldest >= 0 && Expired(c, files[oldest], o(calls), o(calls + 1));
      if !expired && !Over(c, files, extraBytes, extraSegments) then Enough(files, calls + 2)
      else if oldest < 0 then Failed(files, calls + 2)
      else Delete(o, files, oldest, calls + 2)
  }

  /** Count the oldest file's records, delete it and sync the directory. */
  function Delete(o: Oracle, files: seq<File>, i: nat, calls: nat): Pass
    requires i < |files|
  {
    if !o(calls).ok then Failed(files, calls + 1)
    else if !o(calls + 1).ok then Failed(files, calls + 2)
    else if !o(calls + 2).ok then Failed(Without(files, i), calls + 3)
    else Again(Without(files, i), calls + 3)
  }

  /** Delete the oldest segments until the limits hold; stops at the first storage failure. */
  function Retain(o: Oracle, c: Config, files: seq<File>, calls: nat, extraBytes: nat, extraSegments: nat): Pass
    decreases |files|
  {
    var p := RetainOnce(o, c, files, calls, extraBytes, extraSegments);
    if p.Again? then Retain(o, c, p.files, p.calls, extraBytes, extraSegments) else p
  }

  function Retention(o: Oracle, c: Config, s: Segments, extraBytes: nat, extraSegments: nat): (Segments, bool) {
    var p := Retain(o, c, s.files, s.calls, extraBytes, extraSegments);
    (s.(files := p.files, calls := p.calls), p.Enough?)
  }

  // ----- segments -----

  function OpenSegment(o: Oracle, c: Config, s: Segments): (Segments, bool) {
    var (r, ok) := Retention(o, c, s, 0, 1);
    if !ok || r.generation == MAX_GENERATION then (r, false)
    else
      var created := o(r.calls);
      var g := Called(r, 1).(generation := r.generation + 1);
      if !created.ok then (g.(active := false), false)
      else (Called(Created(g, created.now), 1), o(g.calls).ok)
  }

  function Created(s: Segments, now: int): Segments {
    s.(files := s.files + [File(Active, true, [], now, [])], active := true, open := true, activeBytes := 0,
       unsynced := 0)
  }

  function SyncActive(o: Oracle, s: Segments): (Segments, bool) {
    if !s.open then (s, true)
    else if !o(s.calls).ok then (Called(s, 1), false)
    else (Called(s, 1).(synced := s.synced + s.unsynced, unsynced := 0), true)
  }

  /** The active file takes another name; it is the last one. */
  function Renamed(s: Segments, kind: Kind): Segments
    requires s.files != []
  {
    s.(files := Front(s.files) + [Last(s.files).(kind := kind)], active := false)
  }

  function Seal(o: Oracle, s: Segments): (Segments, bool)
    requires s.files != []
  {
    var (r, ok) := SyncActive(o, s);
    if !ok then (r, false)
    else if !o(r.calls).ok then (Called(r, 1).(open := false), false)
    else if !o(r.calls + 1).ok then (Called(r, 2).(open := false), false)
    else (Called(Renamed(r, Sealed), 3).(open := false, activeBytes := 0), o(r.calls + 2).ok)
  }

  /** Give up on the active segment: what was written and not synced becomes uncertain. */
  function Abandon(o: Oracle, s: Segments): Segments
    requires s.active ==> s.files != []
  {
    var t := GivenUp(s);
    if !t.active then t
    else if o(t.calls).ok then Called(Renamed(t, Suspect), 1)
    else Called(t, 1)
  }

  function GivenUp(s: Segments): Segments {
    s.(healthy := false, uncertain := s.uncertain + s.unsynced, abandoned := s.abandoned + s.unsynced, unsynced := 0,
       open := false, calls := s.calls + if s.open then 1 else 0)
  }

  function Recover(o: Oracle, c: Config, s: Segments): (Segments, bool)
    requires s.active ==> s.files != []
  {
    if s.active && !o(s.calls).ok then (Called(s, 1), false)
    else
      var t := if s.active then Called(Renamed(s, Suspect), 1) else s;
      var (u, ok) := OpenSegment(o, c, t);
      if ok then (u.(healthy := true), true) else (u, false)
  }

  /** Bytes go to the end of the active file. */
  function Extended(s: Segments, bytes: seq<Byte>, now: int): Segments
    requires s.files != []
  {
    var f := Last(s.files);
    s.(files := Front(s.files) + [f.(content := f.content + bytes, mtime := now)],
       activeBytes := s.activeBytes + |bytes|)
  }

  function AtMost(n: nat, limit: nat): nat {
    if n < limit then n else limit
  }

  /** Write what is left of a record; a short write continues, a failed one leaves it torn. */
  function WriteAll(o: Oracle, s: Segments, left: seq<Byte>): (Segments, bool)
    requires s.files != []
    decreases |left|
  {
    if left == [] then (s, true)
    else
      var a := o(s.calls);
      if a.count == 0 then (Called(s, 1).(uncertain := s.uncertain + 1, torn := s.torn + 1), false)
      else
        var n := AtMost(a.count, |left|);
        WriteAll(o, Called(Extended(s, left[..n], a.now), 1), left[n..])
  }

  /** A record that was written whole. */
  function Logged(s: Segments, r: Rec): Segments
    requires s.files != []
  {
    var f := Last(s.files);
    s.(files := Front(s.files) + [f.(records := f.records + [r])], written := s.written + 1,
       unsynced := s.unsynced + 1)
  }

  /** Make room for a record: a new segment if it does not fit, then retention for its bytes. */
  function Prepare(o: Oracle, c: Config, s: Segments, size: nat): (Segments, bool)
    requires s.files != []
  {
    if size > c.segmentBytes - s.activeBytes then
      var (t, sealed) := Seal(o, s);
      if !sealed then (t, false)
      else
        var (u, ready) := OpenSegment(o, c, t);
        if !ready then (u, false) else Retention(o, c, u, size, 0)
    else Retention(o, c, s, size, 0)
  }
}
