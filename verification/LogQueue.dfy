/** The bounded event queue of the log writer: a ring of fixed slots and a batch buffer, against
    the sequence of events they stand for.
 */
module LogQueue {

  datatype Queued = Queued(event: nat, sequence: nat)

  const ZERO := Queued(0, 0)

  /** Entries numbered one after the other from `first`. */
  predicate Consecutive(entries: seq<Queued>, first: nat) {
    forall i :: 0 <= i < |entries| ==> entries[i].sequence == first + i
  }

  /** `count` entries from `head` on, going around the end. */
  ghost function Window(ring: seq<Queued>, head: nat, count: nat): (entries: seq<Queued>)
    requires head < |ring| && count <= |ring|
    ensures |entries| == count
  {
    seq(count, i requires 0 <= i < count => if head + i < |ring| then ring[head + i] else ring[head + i - |ring|])
  }

  class RingQueue {
    const slots: array<Queued>
    const batch: array<Queued>
    var head: nat
    var count: nat
    var nextSequence: nat

    /** Oldest first. */
    ghost function Contents(): (entries: seq<Queued>)
      reads this, slots
      requires slots.Length > 0 && head < slots.Length && count <= slots.Length
      ensures |entries| == count
    {
      Window(slots[..], head, count)
    }

    ghost predicate Valid()
      reads this, slots
    {
      && slots != batch && slots.Length > 0 && batch.Length > 0
      && head < slots.Length && count <= slots.Length
      && count <= nextSequence
      && Consecutive(Contents(), nextSequence - count + 1)
    }

    constructor (capacity: nat, batchSize: nat)
      requires capacity > 0 && batchSize > 0
      ensures Valid() && fresh(slots) && fresh(batch) && Contents() == [] && nextSequence == 0
      ensures slots.Length == capacity && batch.Length == batchSize
    {
      slots := new Queued[capacity](_ => ZERO);
      batch := new Queued[batchSize](_ => ZERO);
      head, count, nextSequence := 0, 0, 0;
    }

    /** The slot after the newest entry is free unless the ring is full. */
    method Push(event: nat) returns (ok: bool)
      requires Valid()
      modifies this`count, this`nextSequence, slots
      ensures Valid() && ok == (old(count) < slots.Length)
      ensures ok ==> Contents() == old(Contents()) + [Queued(event, nextSequence)] && nextSequence == old(nextSequence) + 1
      ensures !ok ==> Contents() == old(Contents()) && nextSequence == old(nextSequence)
    {
      ok := count != slots.Length;
      if !ok { return; }
      ghost var was := Contents();
      var tail := (head + count) % slots.Length;
      assert tail == if head + count < slots.Length then head + count else head + count - slots.Length by {
        Wrap(head + count, slots.Length);
      }
      nextSequence := nextSequence + 1;
      slots[tail] := Queued(event, nextSequence);
      count := count + 1;
      assert Contents() == was + [Queued(event, nextSequence)];
    }

    /** The oldest entries, at most a batch of them, moved out and wiped from the ring. */
    method TakeBatch() returns (taken: nat)
      requires Valid()
      modifies this`head, this`count, slots, batch
      ensures Valid()
      ensures taken == if old(count) < batch.Length then old(count) else batch.Length
      ensures batch[..taken] == old(Contents())[..taken]
      ensures Contents() == old(Contents())[taken..]
    {
      taken := if count < batch.Length then count else batch.Length;
      ghost var all := Contents();
      var i := 0;
      while i < taken
        invariant i <= taken <= batch.Length && slots != batch
        invariant head < slots.Length && count == |all| - i <= slots.Length
        invariant batch[..i] == all[..i]
        invariant Contents() == all[i..]
      {
        batch[i] := slots[head];
        assert all[i] == Contents()[0];
        Step();
        i := i + 1;
      }
    }

    /** One entry leaves the front. */
    method Step()
      requires slots.Length > 0 && head < slots.Length && 0 < count <= slots.Length
      modifies this`head, this`count, slots
      ensures head < slots.Length && count == old(count) - 1
      ensures Contents() == old(Contents())[1..]
    {
      ghost var was := Contents();
      slots[head] := ZERO;
      Wrap(head + 1, slots.Length);
      head := (head + 1) % slots.Length;
      count := count - 1;
      assert forall k :: 0 <= k < count ==> Contents()[k] == was[k + 1];
    }
  }

  lemma Wrap(n: nat, size: nat)
    requires 0 < size && n < 2 * size
    ensures n % size == if n < size then n else n - size
  {
    if n >= size {
      assert n == (n - size) + size;
      ModOnce(n - size, size);
    }
  }

  lemma ModOnce(n: nat, size: nat)
    requires n < size
    ensures (n + size) % size == n
  {
    var q, r := (n + size) / size, (n + size) % size;
    assert q * size + r == n + size;
    MulBounds(q, size);
    assert q == 1;
  }

  lemma MulBounds(q: int, size: nat)
    ensures q <= 0 ==> q * size <= 0
    ensures q >= 2 ==> q * size >= 2 * size
  {
  }
}
