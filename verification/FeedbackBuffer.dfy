/** The ring as the program keeps it: a fixed array of slots, and the counters publishers and the
    writer thread share. */
module FeedbackBuffer {
  import opened Wire
  import opened FeedbackSegments
  import opened FeedbackQueue
  import M = FeedbackModel

  class Buffer {
    const config: Config
    const slots: array<seq<Byte>>
    var head: nat
    var tail: nat
    var queued: nat
    var pendingRecords: nat
    var pendingBytes: nat
    var closing: bool
    var captured: nat
    var sequence: nat
    var publishing: nat
    var drops: map<M.Reason, nat>
    var hand: M.Hand
    ghost var log: seq<seq<Byte>>
    var taken: nat

    ghost function Contents(): Queue
      reads this, slots
    {
      Queue(slots[..], head, tail, queued, log, taken)
    }

    /** The whole writer's state, with the storage as given. */
    ghost function State(s: Segments): M.Writer
      reads this, slots
    {
      M.Writer(Contents(), pendingRecords, pendingBytes, hand, s, closing, captured, drops, sequence, publishing)
    }

    constructor (c: Config)
      requires c.Valid()
      ensures fresh(slots) && config == c && slots.Length == c.bufferRecords
      ensures Ring(Contents()) && queued == pendingRecords == pendingBytes == captured == publishing == 0
      ensures hand.Empty? && !closing && drops == map[] && log == []
    {
      config := c;
      slots := new seq<Byte>[c.bufferRecords](_ => []);
      head, tail, queued, pendingRecords, pendingBytes := 0, 0, 0, 0, 0;
      closing, captured, sequence, publishing, drops, hand := false, 0, 0, 0, map[], M.Empty;
      log, taken := [], 0;
    }

    method Drop(reason: M.Reason)
      modifies `drops
      ensures drops == M.Dropped(old(drops), reason)
    {
      drops := drops[reason := (if reason in drops then drops[reason] else 0) + 1];
    }

    /** A publisher arrives: count the event and claim a sequence number. */
    method Begin(ghost s: Segments)
      modifies this
      ensures State(s) == M.Begin(old(State(s)))
    {
      captured := captured + 1;
      if sequence == M.MAX_SEQUENCE {
        Drop(M.IdentityExhausted);
      } else {
        sequence := sequence + 1;
        publishing := publishing + 1;
      }
    }

    /** A publisher has the lock: admit its record or say why not. */
    method Offer(text: seq<Byte>, healthy: bool, ghost s: Segments)
      requires M.Inv(config, State(s)) && healthy == s.healthy && 0 < publishing
      modifies this, slots
      ensures State(s) == M.Offer(config, old(State(s)), text)
    {
      var record := text + [M.NEWLINE];
      if closing {
        TurnAway(M.Closed, s);
      } else if !healthy {
        TurnAway(M.Storage, s);
      } else if pendingRecords >= config.bufferRecords || |record| > config.bufferBytes - pendingBytes {
        TurnAway(M.BufferFull, s);
      } else {
        publishing := publishing - 1;
        Admit(record);
      }
    }

    method TurnAway(reason: M.Reason, ghost s: Segments)
      requires 0 < publishing
      modifies `publishing, `drops
      ensures State(s) == M.Refuse(old(State(s)), reason)
    {
      publishing := publishing - 1;
      Drop(reason);
    }

    method Admit(record: seq<Byte>)
      requires Ring(Contents())
      modifies `pendingRecords, `pendingBytes, `tail, `queued, `log, slots
      ensures pendingBytes == old(pendingBytes) + |record| && pendingRecords == old(pendingRecords) + 1
      ensures Contents() == FeedbackQueue.Push(old(Contents()), record)
    {
      pendingBytes := pendingBytes + |record|;
      pendingRecords := pendingRecords + 1;
      Push(record);
    }

    method Push(record: seq<Byte>)
      requires Ring(Contents())
      modifies `tail, `queued, `log, slots
      ensures Contents() == FeedbackQueue.Push(old(Contents()), record)
    {
      slots[tail] := record;
      tail := (tail + 1) % slots.Length;
      queued := queued + 1;
      log := log + [record];
    }

    /** Remove the earliest waiting record. */
    method Pop() returns (record: seq<Byte>)
      requires Ring(Contents()) && 0 < queued
      modifies `head, `queued, `taken, slots
      ensures Contents() == FeedbackQueue.Pop(old(Contents()))
      ensures record == old(log[taken])
    {
      PopKeeps(Contents());
      record := slots[head];
      slots[head] := [];
      head := (head + 1) % slots.Length;
      queued := queued - 1;
      taken := taken + 1;
    }

    /** At the drain deadline everything still queued is dropped. */
    method DiscardAll()
      requires Ring(Contents()) && queued <= pendingRecords && Bytes(Waiting(Contents())) <= pendingBytes
      modifies `head, `queued, `taken, `pendingRecords, `pendingBytes, `drops, slots
      ensures Ring(Contents()) && queued == 0 && log == old(log)
      ensures pendingRecords == old(pendingRecords) - old(queued)
      ensures pendingBytes == old(pendingBytes) - Bytes(old(Waiting(Contents())))
      ensures M.Count(drops, M.Shutdown) == M.Count(old(drops), M.Shutdown) + old(queued)
      ensures forall r :: r != M.Shutdown ==> M.Count(drops, r) == M.Count(old(drops), r)
    {
      while queued != 0
        invariant Ring(Contents()) && queued <= old(queued) && log == old(log)
        invariant old(pendingRecords) - pendingRecords == old(queued) - queued && queued <= pendingRecords
        invariant pendingBytes - Bytes(Waiting(Contents())) == old(pendingBytes) - Bytes(old(Waiting(Contents())))
        invariant Bytes(Waiting(Contents())) <= pendingBytes
        invariant M.Count(drops, M.Shutdown) == M.Count(old(drops), M.Shutdown) + old(queued) - queued
        invariant forall r :: r != M.Shutdown ==> M.Count(drops, r) == M.Count(old(drops), r)
        decreases queued
      {
        PopKeeps(Contents());
        var record := Pop();
        pendingRecords := pendingRecords - 1;
        pendingBytes := pendingBytes - |record|;
        Drop(M.Shutdown);
      }
    }

    /** The thread takes a record. */
    method Take(ghost s: Segments)
      requires M.Inv(config, State(s)) && hand.Empty? && 0 < queued
      modifies this, slots
      ensures State(s) == M.Take(old(State(s)))
    {
      PopKeeps(Contents());
      var record := Pop();
      hand := M.Holding(Rec(taken - 1, record));
    }

    /** The thread is done with the record it holds: the two releases, one after the other. */
    method FinishPending(ghost s: Segments)
      requires M.Inv(config, State(s)) && hand.Settled?
      modifies `pendingRecords, `pendingBytes, `hand
      ensures State(s) == M.ReleaseBytes(M.ReleaseRecord(old(State(s))))
    {
      pendingRecords := pendingRecords - 1;
      pendingBytes := pendingBytes - |hand.record.text|;
      hand := M.Empty;
    }
  }
}
