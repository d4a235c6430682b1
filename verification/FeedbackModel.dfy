/** The whole feedback writer: publishers, the ring, the writer thread and its segments, as a state
    machine whose steps interleave freely. */
module FeedbackModel {
  import opened Wire
  import opened FeedbackSegments
  import I = FeedbackIntegrity
  import S = FeedbackSteps
  import opened FeedbackQueue

  const MAX_SEQUENCE := TWO_64 - 1
  const NEWLINE: Byte := 10

  datatype Reason = Capture | Serialization | EventLimit | Contention | BufferFull | Closed | Storage | Shutdown
                  | IdentityExhausted

  /** What the thread has in hand: a record to store, one whose fate is counted, or one half released. */
  datatype Hand = Empty | Holding(record: Rec) | Settled(record: Rec) | Releasing(record: Rec)

  /** `publishing` counts publishers between being captured and having an outcome. */
  datatype Writer = Writer(queue: Queue, pendingRecords: nat, pendingBytes: nat, hand: Hand, segments: Segments,
                           closing: bool, captured: nat, drops: map<Reason, nat>, sequence: nat, publishing: nat)

  function Dropped(drops: map<Reason, nat>, reason: Reason): map<Reason, nat> {
    drops[reason := Count(drops, reason) + 1]
  }

  function Count(drops: map<Reason, nat>, reason: Reason): nat {
    if reason in drops then drops[reason] else 0
  }

  /** Every drop but those of events never published. */
  function Lost(d: map<Reason, nat>): nat {
    Count(d, Serialization) + Count(d, EventLimit) + Count(d, Contention) + Count(d, BufferFull) + Count(d, Closed)
    + Count(d, Storage) + Count(d, Shutdown) + Count(d, IdentityExhausted)
  }

  lemma LostOne(d: map<Reason, nat>, reason: Reason)
    ensures Lost(Dropped(d, reason)) == Lost(d) + (if reason.Capture? then 0 else 1)
  {
  }

  function Drop(w: Writer, reason: Reason): Writer {
    w.(drops := Dropped(w.drops, reason))
  }

  // ----- publishing -----

  /** Count the event and claim a sequence number for it. */
  function Begin(w: Writer): Writer {
    var v := w.(captured := w.captured + 1);
    if w.sequence == MAX_SEQUENCE then Drop(v, IdentityExhausted)
    else v.(sequence := w.sequence + 1, publishing := w.publishing + 1)
  }

  /** The event could not be serialized, was too large, or found the lock taken. */
  function Refuse(w: Writer, reason: Reason): Writer
    requires 0 < w.publishing
  {
    Drop(w.(publishing := w.publishing - 1), reason)
  }

  predicate Full(c: Config, w: Writer, size: nat) {
    w.pendingRecords >= c.bufferRecords || size > c.bufferBytes - w.pendingBytes
  }

  /** With the lock held: admit the serialized event, or say why not. */
  function Offer(c: Config, w: Writer, text: seq<Byte>): Writer
    requires 0 < w.publishing && w.queue.tail < |w.queue.slots|
  {
    var record := text + [NEWLINE];
    if w.closing then Refuse(w, Closed)
    else if !w.segments.healthy then Refuse(w, Storage)
    else if Full(c, w, |record|) then Refuse(w, BufferFull)
    else w.(publishing := w.publishing - 1, pendingBytes := w.pendingBytes + |record|,
            pendingRecords := w.pendingRecords + 1, queue := Push(w.queue, record))
  }

  // ----- the writer thread -----

  function Take(w: Writer): Writer
    requires 0 < w.queue.queued && w.queue.head < |w.queue.slots|
  {
    w.(hand := Holding(Rec(w.queue.taken, w.queue.slots[w.queue.head])), queue := Pop(w.queue))
  }

  /** One record discarded at the drain deadline. */
  function DiscardOne(w: Writer): Writer
    requires 0 < w.queue.queued && w.queue.head < |w.queue.slots|
    requires 0 < w.pendingRecords && |w.queue.slots[w.queue.head]| <= w.pendingBytes
  {
    Drop(w.(pendingRecords := w.pendingRecords - 1, pendingBytes := w.pendingBytes - |w.queue.slots[w.queue.head]|,
            queue := Pop(w.queue)), Shutdown)
  }

  function Process(o: Oracle, c: Config, w: Writer): Writer
    requires c.Valid() && Inv(c, w) && w.hand.Holding? && !w.segments.stopped
  {
    var r := w.hand.record;
    if !w.segments.healthy then Drop(w.(hand := Settled(r)), Storage)
    else
      var (s, ok) := S.AppendStep(o, c, w.segments, r, Past(w));
      var v := w.(segments := s, hand := Settled(r));
      if ok then v else Drop(v, Storage)
  }

  function ReleaseRecord(w: Writer): Writer
    requires w.hand.Settled? && 0 < w.pendingRecords
  {
    w.(pendingRecords := w.pendingRecords - 1, hand := Releasing(w.hand.record))
  }

  function ReleaseBytes(w: Writer): Writer
    requires w.hand.Releasing? && |w.hand.record.text| <= w.pendingBytes
  {
    w.(pendingBytes := w.pendingBytes - |w.hand.record.text|, hand := Empty)
  }

  // ----- invariant -----

  /** The records taken so far, without the one still to be stored. */
  ghost function Past(w: Writer): seq<seq<Byte>>
    requires Ring(w.queue) && (w.hand.Holding? ==> w.hand.record.index <= |w.queue.log|)
  {
    if w.hand.Holding? then w.queue.log[..w.hand.record.index] else w.queue.log[..w.queue.taken]
  }

  ghost predicate InHand(w: Writer) {
    w.hand.Empty? ||
      (&& w.hand.record.index + 1 == w.queue.taken <= |w.queue.log|
       && w.queue.log[w.hand.record.index] == w.hand.record.text)
  }

  /** Admitted records are never empty and within the event limit. */
  ghost predicate Sized(c: Config, log: seq<seq<Byte>>) {
    forall r :: r in log ==> 1 <= |r| <= c.maxEventBytes + 1
  }

  ghost predicate Counted(w: Writer) {
    && w.pendingRecords == w.queue.queued + (if w.hand.Holding? || w.hand.Settled? then 1 else 0)
    && w.captured + (if w.hand.Settled? then 1 else 0)
       == w.segments.written + Lost(w.drops) + w.pendingRecords + w.publishing
  }

  ghost predicate Held(w: Writer)
    requires Ring(w.queue)
  {
    w.pendingBytes == Bytes(Waiting(w.queue)) + (if w.hand.Empty? then 0 else |w.hand.record.text|)
  }

  ghost predicate Inv(c: Config, w: Writer) {
    && Ring(w.queue) && |w.queue.slots| == c.bufferRecords
    && InHand(w) && Sized(c, w.queue.log)
    && Counted(w) && w.pendingRecords <= c.bufferRecords
    && Held(w) && w.pendingBytes <= c.bufferBytes
    && I.Inv(c, w.segments, Past(w))
    && (w.segments.stopped ==> w.closing && w.queue.queued == 0 && w.hand.Empty?)
  }

  // ----- steps -----

  datatype Step = Publish | Refused(reason: Reason) | Offered(text: seq<Byte>) | NeverPublished | Close
                | Discard | Taken | Recovered | Processed | ReleasedRecord | ReleasedBytes | Synced | Stop

  ghost predicate Can(c: Config, w: Writer, step: Step) {
    match step
    case Publish => true
    case Refused(reason) => 0 < w.publishing && (reason.Serialization? || reason.EventLimit? || reason.Contention?)
    case Offered(text) => 0 < w.publishing && |text| <= c.maxEventBytes
    case NeverPublished => true
    case Close => true
    case Discard => Running(w) && w.hand.Empty? && w.closing && 0 < w.queue.queued
    case Taken => Running(w) && w.hand.Empty? && 0 < w.queue.queued
    case Recovered => Running(w) && !w.segments.healthy && (w.hand.Empty? || w.hand.Holding?)
    case Processed => Running(w) && w.hand.Holding?
    case ReleasedRecord => w.hand.Settled?
    case ReleasedBytes => w.hand.Releasing?
    case Synced => Running(w) && w.segments.healthy && w.hand.Empty?
    case Stop => Running(w) && w.hand.Empty? && w.closing && w.queue.queued == 0
  }

  predicate Running(w: Writer) {
    !w.segments.stopped
  }

  function Do(o: Oracle, c: Config, w: Writer, step: Step): Writer
    requires c.Valid() && Inv(c, w) && Can(c, w, step)
  {
    HandFacts(c, w);
    match step
    case Publish => Begin(w)
    case Refused(reason) => Refuse(w, reason)
    case Offered(text) => Offer(c, w, text)
    case NeverPublished => Drop(w, Capture)
    case Close => w.(closing := true)
    case Discard => DiscardOne(w)
    case Taken => Take(w)
    case Recovered => w.(segments := S.RecoverStep(o, c, w.segments, Past(w)))
    case Processed => Process(o, c, w)
    case ReleasedRecord => ReleaseRecord(w)
    case ReleasedBytes => ReleaseBytes(w)
    case Synced => w.(segments := S.SyncStep(o, c, w.segments, Past(w)))
    case Stop => w.(segments := S.FinishStep(o, c, w.segments, Past(w)))
  }

  lemma HandFacts(c: Config, w: Writer)
    requires Inv(c, w)
    ensures 0 < w.queue.queued ==> w.queue.slots[w.queue.head] == w.queue.log[w.queue.taken]
    ensures 0 < w.queue.queued ==> 0 < w.pendingRecords && |w.queue.slots[w.queue.head]| <= w.pendingBytes
  {
    if 0 < w.queue.queued {
      PopKeeps(w.queue);
    }
  }
}
