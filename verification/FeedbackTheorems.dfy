/** What every run of the feedback writer keeps, for every interleaving and every storage fault. */
module FeedbackTheorems {
  import opened Wire
  import opened FeedbackSegments
  import I = FeedbackIntegrity
  import S = FeedbackSteps
  import F = FeedbackFaults
  import opened FeedbackQueue
  import opened FeedbackModel

  // ----- each step -----

  lemma PastRaised(c: Config, s: Segments, past: seq<seq<Byte>>, more: seq<seq<Byte>>)
    requires I.Inv(c, s, past) && past <= more
    ensures I.Inv(c, s, more)
  {
    S.Raised(c, s.files, past, more);
  }

  lemma CountsKeep(c: Config, w: Writer, v: Writer)
    requires Inv(c, w) && Counted(v) && (w.closing ==> v.closing)
    requires v == w.(captured := v.captured, drops := v.drops, sequence := v.sequence, publishing := v.publishing,
                     closing := v.closing)
    ensures Inv(c, v)
  {
    assert Past(v) == Past(w);
  }

  lemma BeginKeeps(c: Config, w: Writer)
    requires Inv(c, w)
    ensures Inv(c, Begin(w))
  {
    LostOne(w.drops, IdentityExhausted);
    CountsKeep(c, w, Begin(w));
  }

  lemma RefuseKeeps(c: Config, w: Writer, reason: Reason)
    requires Inv(c, w) && 0 < w.publishing && !reason.Capture?
    ensures Inv(c, Refuse(w, reason))
  {
    LostOne(w.drops, reason);
    CountsKeep(c, w, Refuse(w, reason));
  }

  lemma OfferKeeps(c: Config, w: Writer, text: seq<Byte>)
    requires c.Valid() && Inv(c, w) && 0 < w.publishing && |text| <= c.maxEventBytes
    ensures Inv(c, Offer(c, w, text))
  {
    var record := text + [NEWLINE];
    if w.closing {
      RefuseKeeps(c, w, Closed);
    } else if !w.segments.healthy {
      RefuseKeeps(c, w, Storage);
    } else if Full(c, w, |record|) {
      RefuseKeeps(c, w, BufferFull);
    } else {
      PushKeeps(w.queue, record);
      BytesPush(Waiting(w.queue), record);
      var v := Offer(c, w, text);
      assert Past(v) == Past(w);
    }
  }

  lemma TakeKeeps(c: Config, w: Writer)
    requires Inv(c, w) && w.hand.Empty? && 0 < w.queue.queued && !w.segments.stopped
    ensures Inv(c, Take(w))
  {
    PopKeeps(w.queue);
    var v := Take(w);
    assert Past(v) == Past(w);
  }

  lemma DiscardKeeps(c: Config, w: Writer)
    requires Inv(c, w) && w.hand.Empty? && 0 < w.queue.queued && !w.segments.stopped
    requires 0 < w.pendingRecords && |w.queue.slots[w.queue.head]| <= w.pendingBytes
    ensures Inv(c, DiscardOne(w))
  {
    PopKeeps(w.queue);
    LostOne(w.drops, Shutdown);
    var v := DiscardOne(w);
    assert Past(w) <= Past(v);
    PastRaised(c, w.segments, Past(w), Past(v));
  }

  lemma ProcessKeeps(o: Oracle, c: Config, w: Writer)
    requires c.Valid() && Inv(c, w) && w.hand.Holding? && !w.segments.stopped
    ensures Inv(c, Process(o, c, w))
    ensures Process(o, c, w).segments.written + Lost(Process(o, c, w).drops) == w.segments.written + Lost(w.drops) + 1
  {
    LostOne(w.drops, Storage);
    var r := w.hand.record;
    var v := Process(o, c, w);
    PastSettled(w, v);
    if w.segments.healthy {
      assert r.text in w.queue.log;
      S.AppendStepKeeps(o, c, w.segments, r, Past(w));
    } else {
      PastRaised(c, w.segments, Past(w), Past(v));
    }
    SettledKeeps(c, w, v);
  }

  lemma PastSettled(w: Writer, v: Writer)
    requires Ring(w.queue) && InHand(w) && w.hand.Holding? && v.queue == w.queue && v.hand == Settled(w.hand.record)
    ensures Past(v) == Past(w) + [w.hand.record.text]
  {
  }

  lemma SettledKeeps(c: Config, w: Writer, v: Writer)
    requires Inv(c, w) && w.hand.Holding? && !v.segments.stopped
    requires v == w.(hand := Settled(w.hand.record), segments := v.segments, drops := v.drops)
    requires v.segments.written + Lost(v.drops) == w.segments.written + Lost(w.drops) + 1
    requires I.Inv(c, v.segments, Past(v))
    ensures Inv(c, v)
  {
  }

  lemma ReleaseKeeps(c: Config, w: Writer)
    requires Inv(c, w)
    ensures w.hand.Settled? ==> 0 < w.pendingRecords && Inv(c, ReleaseRecord(w))
    ensures w.hand.Releasing? ==> |w.hand.record.text| <= w.pendingBytes && Inv(c, ReleaseBytes(w))
  {
  }

  lemma StorageKeeps(o: Oracle, c: Config, w: Writer, s: Segments)
    requires Inv(c, w) && I.Inv(c, s, Past(w)) && s.written == w.segments.written
    requires s.stopped ==> w.closing && w.queue.queued == 0 && w.hand.Empty?
    ensures Inv(c, w.(segments := s))
  {
    assert Past(w.(segments := s)) == Past(w);
  }

  lemma DoInv(o: Oracle, c: Config, w: Writer, step: Step)
    requires c.Valid() && Inv(c, w) && Can(c, w, step)
    ensures Inv(c, Do(o, c, w, step))
  {
    HandFacts(c, w);
    match step
    case Publish => BeginKeeps(c, w);
    case Refused(reason) => RefuseKeeps(c, w, reason);
    case Offered(text) => OfferKeeps(c, w, text);
    case NeverPublished =>
      LostOne(w.drops, Capture);
      CountsKeep(c, w, Drop(w, Capture));
    case Close => CountsKeep(c, w, w.(closing := true));
    case Discard => DiscardKeeps(c, w);
    case Taken => TakeKeeps(c, w);
    case Recovered =>
      S.RecoverStepKeeps(o, c, w.segments, Past(w));
      StorageKeeps(o, c, w, S.RecoverStep(o, c, w.segments, Past(w)));
    case Processed => ProcessKeeps(o, c, w);
    case ReleasedRecord => ReleaseKeeps(c, w);
    case ReleasedBytes => ReleaseKeeps(c, w);
    case Synced =>
      S.SyncStepKeeps(o, c, w.segments, Past(w));
      StorageKeeps(o, c, w, S.SyncStep(o, c, w.segments, Past(w)));
    case Stop =>
      S.FinishStepKeeps(o, c, w.segments, Past(w));
      StorageKeeps(o, c, w, S.FinishStep(o, c, w.segments, Past(w)));
  }

  // ----- whole runs -----

  function Opened(c: Config, s: Segments): Writer
    requires c.Valid()
  {
    Writer(Queue(seq(c.bufferRecords, _ => []), 0, 0, 0, [], 0), 0, 0, Empty, s, false, 0, map[], 0, 0)
  }

  lemma OpenedInv(o: Oracle, c: Config, found: seq<File>)
    requires c.Valid() && F.Inherited(found) && F.Start(o, c, found).1
    ensures Inv(c, Opened(c, F.Start(o, c, found).0))
  {
    F.StartEstablishes(o, c, found);
    var w := Opened(c, F.Start(o, c, found).0);
    assert Past(w) == [];
  }

  /** An attempted step; one that is not possible changes nothing. */
  ghost function Next(o: Oracle, c: Config, w: Writer, step: Step): (v: Writer)
    requires c.Valid() && Inv(c, w)
    ensures Inv(c, v)
  {
    if Can(c, w, step) then DoInv(o, c, w, step); Do(o, c, w, step) else w
  }

  /** A writer that started, whatever it found, after any interleaving of steps. */
  ghost function After(o: Oracle, c: Config, found: seq<File>, steps: seq<Step>): (w: Writer)
    requires c.Valid() && F.Inherited(found) && F.Start(o, c, found).1
    ensures Inv(c, w)
  {
    if steps == [] then OpenedInv(o, c, found); Opened(c, F.Start(o, c, found).0)
    else Next(o, c, After(o, c, found, Front(steps)), Last(steps))
  }

  ghost predicate Quiescent(w: Writer) {
    w.hand.Empty? && w.publishing == 0
  }

  /** Feedback accounting, after every run: an event that was captured is written, dropped for a
      counted reason, or pending; pending records and bytes are exactly those held and within the
      buffer's limits; written records are synced, unsynced or given up. */
  lemma {:induction false} FeedbackAccounting(o: Oracle, c: Config, found: seq<File>, steps: seq<Step>)
    requires c.Valid() && F.Inherited(found) && F.Start(o, c, found).1
    ensures var w := After(o, c, found, steps);
            && (Quiescent(w) ==> w.captured == w.segments.written + Lost(w.drops) + w.pendingRecords)
            && w.queue.queued <= w.pendingRecords <= c.bufferRecords
            && Ring(w.queue)
            && (Quiescent(w) ==> w.pendingBytes == Bytes(Waiting(w.queue)))
            && w.pendingBytes <= c.bufferBytes
            && w.segments.written == w.segments.synced + w.segments.unsynced + w.segments.abandoned
            && w.segments.uncertain == w.segments.abandoned + w.segments.torn
            && (w.segments.stopped ==> w.pendingRecords == 0 && w.pendingBytes == 0 && w.segments.unsynced == 0)
  {
    var w := After(o, c, found, steps);
    if w.segments.stopped {
      AccountingOf(c, w);
    }
  }

  lemma AccountingOf(c: Config, w: Writer)
    requires Inv(c, w) && w.segments.stopped
    ensures w.pendingBytes == 0 && w.segments.unsynced == 0
  {
    assert Waiting(w.queue) == [];
  }

  /** Segment integrity, after every run: each sealed segment of this writer is the concatenation of
      whole admitted records and no longer than a segment may be, all of them together in admission
      order; total size and count stay within the retention limits. */
  lemma {:induction false} SegmentIntegrity(o: Oracle, c: Config, found: seq<File>, steps: seq<Step>)
    requires c.Valid() && F.Inherited(found) && F.Start(o, c, found).1
    ensures var w := After(o, c, found, steps);
            var s, log := w.segments, w.queue.log;
            && (forall f :: f in s.files && f.own && f.kind.Sealed? ==>
                  f.content == Concat(f.records) && |f.content| <= c.segmentBytes)
            && (forall r :: r in I.Flat(s.files) ==> r.index < |log| && log[r.index] == r.text)
            && I.Increasing(I.Flat(s.files))
            && TotalBytes(s.files) <= c.retentionBytes && |s.files| <= c.maxSegments
  {
    var w := After(o, c, found, steps);
    assert Past(w) <= w.queue.log;
    forall f | f in w.segments.files
      ensures I.FileOk(c, f)
    {
    }
  }

  /** In every state of every run, healthy storage that is handed a record stores it, unless the
      append stops at a call that failed or the segment numbers are used up. */
  lemma {:induction false} NoSpuriousLoss(o: Oracle, c: Config, found: seq<File>, steps: seq<Step>)
    requires c.Valid() && F.Inherited(found) && F.Start(o, c, found).1
    requires var w := After(o, c, found, steps); Can(c, w, Processed) && w.segments.healthy
    ensures var w := After(o, c, found, steps);
            var (t, stored) := S.Append(o, c, w.segments, w.hand.record, Past(w));
            && Next(o, c, w, Processed).segments.written == w.segments.written + (if stored then 1 else 0)
            && (stored || F.StoppedAt(o, w.segments, t) || w.segments.generation == MAX_GENERATION)
  {
    var w := After(o, c, found, steps);
    HeldFits(c, w);
    AppendReported(o, c, w);
    F.AppendFaulted(o, c, w.segments, w.hand.record, Past(w));
  }

  lemma HeldFits(c: Config, w: Writer)
    requires c.Valid() && Inv(c, w) && w.hand.Holding?
    ensures |w.hand.record.text| <= c.maxEventBytes + 1 && |Past(w)| == w.hand.record.index
  {
    assert w.hand.record.text in w.queue.log;
  }

  lemma AppendReported(o: Oracle, c: Config, w: Writer)
    requires c.Valid() && Inv(c, w) && w.hand.Holding? && !w.segments.stopped && w.segments.healthy
    requires |w.hand.record.text| <= c.segmentBytes && |Past(w)| == w.hand.record.index
    ensures Process(o, c, w).segments.written
         == w.segments.written + if S.Append(o, c, w.segments, w.hand.record, Past(w)).1 then 1 else 0
  {
    S.AppendStepKeeps(o, c, w.segments, w.hand.record, Past(w));
  }
}
