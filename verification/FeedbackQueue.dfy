/** The bounded ring between publishers and the writer thread. */
module FeedbackQueue {
  import opened Wire
  import opened FeedbackSegments

  /** `log` is history: every admitted record in order, the first `taken` of them already removed. */
  datatype Queue = Queue(slots: seq<seq<Byte>>, head: nat, tail: nat, queued: nat, log: seq<seq<Byte>>, taken: nat)

  /** The slot after one, around the ring. */
  function Next(i: nat, n: nat): nat
    requires 0 < n
  {
    (i + 1) % n
  }

  /** The slot some places after one. */
  function Wrap(i: nat, n: nat): nat {
    if i < n then i else i - n
  }

  lemma NextWraps(i: nat, n: nat)
    requires i < n
    ensures Next(i, n) == Wrap(i + 1, n)
  {
  }

  function Bytes(rs: seq<seq<Byte>>): nat {
    if rs == [] then 0 else |rs[0]| + Bytes(rs[1..])
  }

  lemma {:induction false} BytesPush(rs: seq<seq<Byte>>, r: seq<Byte>)
    ensures Bytes(rs + [r]) == Bytes(rs) + |r|
  {
    if rs == [] {
      assert rs + [r] == [r];
    } else {
      BytesPush(rs[1..], r);
      assert (rs + [r])[1..] == rs[1..] + [r];
    }
  }

  function Waiting(q: Queue): seq<seq<Byte>>
    requires q.taken <= |q.log|
  {
    q.log[q.taken..]
  }

  function Slot(q: Queue, i: nat): seq<Byte>
    requires q.head < |q.slots| && i < |q.slots|
  {
    q.slots[Wrap(q.head + i, |q.slots|)]
  }

  /** The ring's live slots are exactly the admitted records not yet taken, in order. */
  ghost predicate Ring(q: Queue) {
    && 0 < |q.slots| && q.head < |q.slots| && q.queued <= |q.slots|
    && q.tail == Wrap(q.head + q.queued, |q.slots|) && q.tail < |q.slots|
    && q.taken + q.queued == |q.log|
    && forall i :: 0 <= i < q.queued ==> Slot(q, i) == q.log[q.taken + i]
  }

  function Push(q: Queue, r: seq<Byte>): Queue
    requires q.tail < |q.slots|
  {
    q.(slots := q.slots[q.tail := r], tail := Next(q.tail, |q.slots|), queued := q.queued + 1, log := q.log + [r])
  }

  function Pop(q: Queue): Queue
    requires 0 < q.queued && q.head < |q.slots|
  {
    q.(slots := q.slots[q.head := []], head := Next(q.head, |q.slots|), queued := q.queued - 1, taken := q.taken + 1)
  }

  /** Admission never overwrites a live slot: with room left, the new record is last in line. */
  lemma PushKeeps(q: Queue, r: seq<Byte>)
    requires Ring(q) && q.queued < |q.slots|
    ensures Ring(Push(q, r)) && Waiting(Push(q, r)) == Waiting(q) + [r]
  {
    var t, n := Push(q, r), |q.slots|;
    NextWraps(q.tail, n);
    forall i | 0 <= i < t.queued
      ensures Slot(t, i) == t.log[t.taken + i]
    {
      assert i < q.queued ==> Wrap(q.head + i, n) != q.tail && Slot(t, i) == Slot(q, i);
    }
  }

  /** What the thread takes is the earliest admitted record still waiting. */
  lemma PopKeeps(q: Queue)
    requires Ring(q) && 0 < q.queued
    ensures Ring(Pop(q)) && q.slots[q.head] == q.log[q.taken]
    ensures Waiting(Pop(q)) == Waiting(q)[1..] && Waiting(q)[0] == q.log[q.taken]
  {
    var t, n := Pop(q), |q.slots|;
    NextWraps(q.head, n);
    assert Slot(q, 0) == q.log[q.taken + 0];
    forall i | 0 <= i < t.queued
      ensures Slot(t, i) == t.log[t.taken + i]
    {
      assert Wrap(t.head + i, n) == Wrap(q.head + (i + 1), n) != q.head;
      assert Slot(t, i) == Slot(q, i + 1);
    }
  }
}
