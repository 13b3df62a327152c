/** The log writer: producers publish into the ring at any moment, the pump moves batches into the
    file, and the end abandons what is left and closes with one footer.
 */
module LogWriter {
  import opened LogFile
  import opened LogQueue

  const QUEUE_CAPACITY: nat := 4096
  const BATCH_COUNT: nat := 256
  const PUMP_BATCHES: nat := 4
  const METADATA_BYTES: nat := 131072

  /** 1, 2, ..., n. */
  function Up(n: nat): (numbers: seq<nat>)
    ensures |numbers| == n
    ensures forall i :: 0 <= i < n ==> numbers[i] == i + 1
  {
    seq(n, i requires 0 <= i => i + 1)
  }

  lemma UpNext(n: nat)
    ensures Up(n) + [n + 1] == Up(n + 1)
  {
  }

  /** Bytes that n event lines may take. */
  function EventRoom(n: nat): nat { 1024 * n }

  /** Where every published event has gone. */
  datatype Ledger = Ledger(attempts: nat, held: nat, written: nat, given: nat, full: nat, contended: nat)

  class Writer {
    const queue: RingQueue
    const out: OutputFile
    const quiet: bool            // no producer runs
    const formats: bool          // every record can be formatted
    var eventsWritten: nat
    var abandoned: nat
    var droppedFull: nat
    var droppedContention: nat
    var started: bool
    var footerWritten: bool
    var closed: bool
    ghost var ledger: Ledger

    ghost predicate Separate()
    {
      queue.slots != queue.batch && queue.slots.Length == QUEUE_CAPACITY && queue.batch.Length == BATCH_COUNT
    }

    /** Published is queued, in hand, written, abandoned or dropped. */
    ghost predicate Conserved()
      reads this`ledger, this`eventsWritten, this`abandoned, this`droppedFull, this`droppedContention, queue`count
    {
      && ledger.attempts == queue.count + ledger.held + ledger.written + ledger.given + ledger.full + ledger.contended
      && eventsWritten == Shown(ledger.written) && abandoned == Shown(ledger.given)
      && droppedFull == Shown(ledger.full) && droppedContention == Shown(ledger.contended)
    }

    /** The file holds exactly the first events of the queue, in order; and one more if the last
        one arrived without being reported so. */
    ghost predicate Ordered()
      reads this`ledger, queue`count, queue`nextSequence, out`lines, out`status
    {
      && Events(out.lines) == Up(ledger.written + if Missed(out.lines) then 1 else 0)
      && (Live(out.status) ==> ledger.given == 0
                               && queue.nextSequence == queue.count + ledger.held + ledger.written)
      && queue.nextSequence >= queue.count + ledger.held + ledger.written
    }

    ghost predicate Valid()
      reads this, queue, queue.slots, queue.batch, out
    {
      && Separate() && queue.Valid() && out.Valid() && Conserved() && Ordered()
      && (HasFooter(out.lines) ==> footerWritten) && (footerWritten ==> !Live(out.status))
      && (closed ==> !Live(out.status) && queue.count == 0 && ledger.held == 0)
    }

    constructor (limit: nat, reliable: bool, native: (nat, nat) -> Answer, quiet: bool, formats: bool)
      requires 2 * FOOTER_RESERVE <= limit <= COUNTER_MAX
      ensures Valid() && fresh(queue) && fresh(out) && fresh(queue.slots) && fresh(queue.batch)
      ensures ledger == Ledger(0, 0, 0, 0, 0, 0) && !started && !closed && !footerWritten
      ensures out.lines == [] && out.status == Prepared && out.limit == limit && queue.Contents() == []
      ensures out.reliable == reliable && out.native == native && this.quiet == quiet && this.formats == formats
    {
      queue := new RingQueue(QUEUE_CAPACITY, BATCH_COUNT);
      out := new OutputFile(limit, reliable, native);
      this.quiet, this.formats := quiet, formats;
      eventsWritten, abandoned, droppedFull, droppedContention := 0, 0, 0, 0;
      started, footerWritten, closed := false, false, false;
      ledger := Ledger(0, 0, 0, 0, 0, 0);
    }

    // ---- Producers ----

    /** One event offered from inside a hook. `contended` says that the try-lock was refused. */
    method Publish(event: nat, contended: bool)
      requires Valid()
      modifies this`abandoned, this`droppedFull, this`droppedContention, this`ledger, queue`count, queue`nextSequence, queue.slots
      ensures Valid() && ledger.attempts == old(ledger.attempts) + 1
      ensures ledger.held == old(ledger.held) && ledger.written == old(ledger.written) && ledger.given >= old(ledger.given)
      ensures queue.count >= old(queue.count)
      ensures queue.Contents()[..old(queue.count)] == old(queue.Contents())
      ensures !Live(out.status) ==> queue.Contents() == old(queue.Contents()) && ledger.given == old(ledger.given) + 1
      ensures Live(out.status) && contended ==> queue.Contents() == old(queue.Contents()) && ledger.contended == old(ledger.contended) + 1
      ensures Live(out.status) && !contended && old(queue.count) == QUEUE_CAPACITY ==>
                queue.Contents() == old(queue.Contents()) && ledger.full == old(ledger.full) + 1
      ensures Live(out.status) && !contended && old(queue.count) < QUEUE_CAPACITY ==>
                queue.Contents() == old(queue.Contents()) + [Queued(event, queue.nextSequence)]
    {
      hide Consecutive, Events, HasFooter, WellFormed;
      ledger := ledger.(attempts := ledger.attempts + 1);
      if !Live(out.status) {
        CountAbandoned(1);
      } else if contended {
        CountContention();
      } else {
        var ok := queue.Push(event);
        if !ok { CountFull(); }
      }
    }

    method CountAbandoned(n: nat)
      requires abandoned == Shown(ledger.given)
      modifies this`abandoned, this`ledger
      ensures ledger == old(ledger).(given := old(ledger.given) + n) && abandoned == Shown(ledger.given)
    {
      AddShown(ledger.given, n);
      abandoned := Add64(abandoned, n);
      ledger := ledger.(given := ledger.given + n);
    }

    method CountContention()
      requires droppedContention == Shown(ledger.contended)
      modifies this`droppedContention, this`ledger
      ensures ledger == old(ledger).(contended := old(ledger.contended) + 1) && droppedContention == Shown(ledger.contended)
    {
      AddShown(ledger.contended, 1);
      droppedContention := Add64(droppedContention, 1);
      ledger := ledger.(contended := ledger.contended + 1);
    }

    method CountFull()
      requires droppedFull == Shown(ledger.full)
      modifies this`droppedFull, this`ledger
      ensures ledger == old(ledger).(full := old(ledger.full) + 1) && droppedFull == Shown(ledger.full)
    {
      AddShown(ledger.full, 1);
      droppedFull := Add64(droppedFull, 1);
      ledger := ledger.(full := ledger.full + 1);
    }

    method CountWritten()
      requires eventsWritten == Shown(ledger.written) && ledger.held > 0
      modifies this`eventsWritten, this`ledger
      ensures ledger == old(ledger).(written := old(ledger.written) + 1, held := old(ledger.held) - 1)
      ensures eventsWritten == Shown(ledger.written)
    {
      AddShown(ledger.written, 1);
      eventsWritten := Add64(eventsWritten, 1);
      ledger := ledger.(written := ledger.written + 1, held := ledger.held - 1);
    }

    /** Producers at work between two steps of the pump. */
    method Producers()
      requires Valid()
      modifies this`abandoned, this`droppedFull, this`droppedContention, this`ledger, queue`count, queue`nextSequence, queue.slots
      ensures Valid()
      ensures ledger.held == old(ledger.held) && ledger.written == old(ledger.written) && ledger.given >= old(ledger.given)
      ensures queue.count >= old(queue.count) && queue.Contents()[..old(queue.count)] == old(queue.Contents())
      ensures !Live(out.status) ==> queue.count == old(queue.count)
      ensures quiet ==> ledger == old(ledger) && queue.Contents() == old(queue.Contents()) && queue.nextSequence == old(queue.nextSequence)
    {
      if quiet { return; }
      hide Conserved, Ordered;
      var n: nat := *;
      while n > 0
        invariant Valid()
        invariant ledger.held == old(ledger.held) && ledger.written == old(ledger.written) && ledger.given >= old(ledger.given)
        invariant queue.count >= old(queue.count) && queue.Contents()[..old(queue.count)] == old(queue.Contents())
        invariant !Live(out.status) ==> queue.count == old(queue.count)
      {
        var event: nat, contended: bool := *, *;
        Publish(event, contended);
        n := n - 1;
      }
    }

    // ---- The pump ----

    /** The next batch in hand, numbered from the first event that is not yet in the file. */
    method Take() returns (taken: nat)
      requires Valid() && ledger.held == 0
      modifies this`ledger, queue`head, queue`count, queue.slots, queue.batch
      ensures Valid() && ledger == old(ledger).(held := taken)
      ensures taken == if old(queue.count) < BATCH_COUNT then old(queue.count) else BATCH_COUNT
      ensures queue.count == old(queue.count) - taken
      ensures Live(out.status) ==> Consecutive(queue.batch[..taken], ledger.written + 1)
    {
      ghost var all := queue.Contents();
      ghost var next := queue.nextSequence;
      taken := queue.TakeBatch();
      ledger := ledger.(held := taken);
      assert queue.batch[..taken] == all[..taken];
    }

    /** One event formatted and written. */
    method Append(sequence: nat) returns (ok: bool)
      requires out.Valid() && Live(out.status)
      modifies out`status, out`bytesWritten, out`partialTail, out`lines
      ensures out.Valid() && !HasFooter(out.lines)
      ensures formats && old(Roomy(EVENT_BYTES)) ==>
                exists length :: 0 < length <= EVENT_BYTES && Wrote(out.lines, old(out.lines), old(out.Next(EventLine(sequence), length)), ok)
      ensures (ok ==> out.status == old(out.status)) && (!ok ==> !Live(out.status))
      ensures !Missed(old(out.lines)) && !(ok && Missed(out.lines))
      ensures Events(out.lines) == Events(old(out.lines)) + if ok || Missed(out.lines) then [sequence] else []
      ensures out.reliable && old(Roomy(EVENT_BYTES)) ==> ok
      ensures Bytes(out.lines) <= old(Bytes(out.lines)) + EVENT_BYTES
    {
      var good: bool, length: nat := *, *;
      if out.reliable || formats { good := true; }
      assert !HasFooter(out.lines) && AllReported(out.lines);
      ReportedIsNotMissed(out.lines);
      if !good {
        out.Fail(Failed);
        return false;
      }
      if length == 0 || length > EVENT_BYTES { length := EVENT_BYTES; }
      hide Events, WellFormed, HasFooter, Bytes, Missed, AllReported;
      ok := out.Record(EventLine(sequence), length);
      assert old(Roomy(EVENT_BYTES)) ==> Wrote(out.lines, old(out.lines), old(out.Next(EventLine(sequence), length)), ok);
    }

    /** One event written and counted. */
    method WriteEvent(sequence: nat) returns (ok: bool)
      requires Valid() && Live(out.status) && !closed && ledger.held > 0 && sequence == ledger.written + 1
      modifies out`status, out`bytesWritten, out`partialTail, out`lines, this`eventsWritten, this`ledger
      ensures Valid()
      ensures formats && old(Roomy(EVENT_BYTES)) ==>
                exists length :: 0 < length <= EVENT_BYTES && Wrote(out.lines, old(out.lines), old(out.Next(EventLine(sequence), length)), ok)
      ensures ok ==> Live(out.status) && ledger == old(ledger).(written := old(ledger.written) + 1, held := old(ledger.held) - 1)
      ensures !ok ==> !Live(out.status) && ledger == old(ledger)
      ensures out.reliable && old(Roomy(EVENT_BYTES)) ==> ok
      ensures Bytes(out.lines) <= old(Bytes(out.lines)) + EVENT_BYTES
    {
      UpNext(ledger.written);
      hide Events, Consecutive, WellFormed, HasFooter, Bytes, Up, Missed, AllReported, Wrote, Roomy;
      ok := Append(sequence);
      if ok { CountWritten(); }
    }

    /** One line more, and the answer to the write told as it was. */
    predicate Wrote(now: seq<Line>, was: seq<Line>, line: Line, ok: bool) {
      now == was + [line] && ok == Reported(line)
    }

    ghost predicate Roomy(bytes: nat)
      reads out
    {
      Bytes(out.lines) + bytes + FOOTER_RESERVE <= out.limit
    }

    /** Whatever is in hand is given up. */
    method GiveUp(n: nat)
      requires Valid() && n == ledger.held && (Live(out.status) ==> n == 0)
      modifies this`abandoned, this`ledger
      ensures Valid() && ledger == old(ledger).(given := old(ledger.given) + n, held := 0)
    {
      hide Events, HasFooter, Consecutive;
      CountAbandoned(n);
      ledger := ledger.(held := 0);
    }

    /** One batch: written in order up to the first failure, and the rest abandoned. */
    method PumpBatch() returns (count: nat)
      requires Valid() && Live(out.status) && !closed && ledger.held == 0
      modifies this`abandoned, this`droppedFull, this`droppedContention, this`ledger, this`eventsWritten,
               queue, queue.slots, queue.batch, out
      ensures Valid() && ledger.held == 0
      ensures count == if old(queue.count) < BATCH_COUNT then old(queue.count) else BATCH_COUNT
      ensures Live(out.status) ==> ledger.written == old(ledger.written) + count
      ensures out.reliable && old(Roomy(EventRoom(BATCH_COUNT))) ==> Live(out.status)
      ensures Bytes(out.lines) <= old(Bytes(out.lines)) + EventRoom(count)
      ensures quiet ==> queue.count == old(queue.count) - count
    {
      hide Conserved, Ordered, Bytes, Events, HasFooter, WellFormed;
      count := Take();
      var complete := 0;
      while complete < count
        invariant Valid() && Live(out.status) && !closed
        invariant complete <= count <= BATCH_COUNT && ledger.held == count - complete
        invariant ledger.written == old(ledger.written) + complete
        invariant Consecutive(queue.batch[..count], old(ledger.written) + 1)
        invariant Bytes(out.lines) <= old(Bytes(out.lines)) + EventRoom(complete)
        invariant quiet ==> queue.count == old(queue.count) - count
        decreases count - complete
      {
        Producers();
        assert queue.batch[..count][complete] == queue.batch[complete];
        assert old(Roomy(EventRoom(BATCH_COUNT))) ==> Roomy(EVENT_BYTES);
        var ok := WriteEvent(queue.batch[complete].sequence);
        if !ok { break; }
        complete := complete + 1;
      }
      GiveUp(count - complete);
    }

    // ---- The end ----

    /** Batch by batch, until the queue is seen empty. Nothing can refill it any more. */
    method AbandonQueue()
      requires Valid() && !Live(out.status) && ledger.held == 0
      modifies this`abandoned, this`droppedFull, this`droppedContention, this`ledger, queue, queue.slots, queue.batch
      ensures Valid() && queue.count == 0 && ledger.held == 0 && ledger.written == old(ledger.written)
      ensures ledger.given >= old(ledger.given) + old(queue.count)
      ensures quiet ==> ledger == old(ledger).(given := old(ledger.given) + old(queue.count))
    {
      hide Conserved, Ordered;
      while true
        invariant Valid() && ledger.held == 0 && ledger.written == old(ledger.written)
        invariant ledger.given + queue.count >= old(ledger.given) + old(queue.count)
        invariant quiet ==> ledger == old(ledger).(given := old(ledger.given) + old(queue.count) - queue.count)
        invariant queue.count <= old(queue.count)
        decreases queue.count
      {
        Producers();
        var count := Take();
        if count == 0 { return; }
        GiveUp(count);
      }
    }

    /** An anchor formatted and written; the footer is the last of them. */
    method AppendAnchor(footer: bool) returns (ok: bool)
      requires out.Valid()
      requires if footer then !Live(out.status) && !out.partialTail && !HasFooter(out.lines) else Live(out.status)
      modifies out`status, out`bytesWritten, out`partialTail, out`lines
      ensures out.Valid()
      ensures if footer then out.status == old(out.status) else ok <==> Live(out.status)
      ensures !footer ==> !HasFooter(out.lines)
      ensures out.reliable && footer ==> ok && HasFooter(out.lines)
      ensures Events(out.lines) == Events(old(out.lines)) && Missed(out.lines) == Missed(old(out.lines))
      ensures out.reliable && old(Roomy(ANCHOR_BYTES)) ==> ok
      ensures Bytes(out.lines) <= old(Bytes(out.lines)) + ANCHOR_BYTES
    {
      var good: bool, length: nat := *, *;
      if out.reliable || formats { good := true; }
      if !good {
        out.Fail(Failed);
        return false;
      }
      if length == 0 || length > ANCHOR_BYTES { length := ANCHOR_BYTES; }
      hide Events, WellFormed, HasFooter, Bytes, Missed, AllReported;
      ok := out.Record(if footer then Footer else Anchor, length);
    }

    method WriteAnchor(footer: bool) returns (ok: bool)
      requires Valid() && !closed
      requires if footer then footerWritten && !Live(out.status) && !out.partialTail && !HasFooter(out.lines) else Live(out.status)
      modifies out`status, out`bytesWritten, out`partialTail, out`lines
      ensures Valid()
      ensures footer ==> out.status == old(out.status)
      ensures !footer ==> (ok <==> Live(out.status))
      ensures out.reliable && footer ==> ok && HasFooter(out.lines)
      ensures Events(out.lines) == Events(old(out.lines)) && Missed(out.lines) == Missed(old(out.lines))
      ensures out.reliable && old(Roomy(ANCHOR_BYTES)) ==> ok
      ensures Bytes(out.lines) <= old(Bytes(out.lines)) + ANCHOR_BYTES
    {
      hide Events, Consecutive, WellFormed, HasFooter, Bytes, Missed, AllReported, Roomy;
      ok := AppendAnchor(footer);
    }

    /** The queue drained, one footer unless the tail is torn, and nothing ever again. */
    method Terminal()
      requires Valid() && !Live(out.status) && ledger.held == 0 && !closed && !footerWritten
      modifies this`abandoned, this`droppedFull, this`droppedContention, this`ledger, this`footerWritten, this`closed,
               queue, queue.slots, queue.batch, out
      ensures Valid() && closed && ledger.written == old(ledger.written) && out.status == old(out.status)
      ensures out.reliable && started && !old(out.partialTail) ==> HasFooter(out.lines)
      ensures old(out.partialTail) ==> out.lines == old(out.lines)
      ensures quiet ==> ledger == old(ledger).(given := old(ledger.given) + old(queue.count))
      ensures Events(out.lines) == Events(old(out.lines)) && Missed(out.lines) == Missed(old(out.lines))
    {
      hide Conserved, Ordered;
      AbandonQueue();
      if !footerWritten && !out.partialTail && started {
        footerWritten := true;
        var _ := WriteAnchor(true);
      }
      closed := true;
    }

    /** The file shows exactly the counted events if and only if no event arrived in full without
        its write reporting just that; otherwise it shows exactly one more. */
    lemma EventsAreExact()
      requires Valid()
      ensures Events(out.lines) == Up(ledger.written) <==> !Missed(out.lines)
      ensures Missed(out.lines) ==> Events(out.lines) == Up(ledger.written) + [ledger.written + 1] && !Live(out.status)
    {
      UpNext(ledger.written);
      assert |Up(ledger.written)| != |Up(ledger.written + 1)|;
      if Live(out.status) { ReportedIsNotMissed(out.lines); }
    }

    /** Below saturation the public counters balance by themselves. */
    lemma CountersBalance()
      requires Valid() && ledger.held == 0
      requires eventsWritten < COUNTER_MAX && abandoned < COUNTER_MAX
      requires droppedFull < COUNTER_MAX && droppedContention < COUNTER_MAX
      ensures ledger.attempts == queue.count + eventsWritten + abandoned + droppedFull + droppedContention
    {
    }

    method WriteStartup() returns (ok: bool)
      requires Valid() && Live(out.status) && !closed
      modifies out`status, out`bytesWritten, out`partialTail, out`lines
      ensures Valid() && (ok <==> Live(out.status)) && (ok ==> out.status == old(out.status))
      ensures formats && old(Roomy(METADATA_BYTES)) ==>
                exists length :: 0 < length <= METADATA_BYTES && Wrote(out.lines, old(out.lines), old(out.Next(Startup, length)), ok)
      ensures Bytes(out.lines) <= old(Bytes(out.lines)) + METADATA_BYTES
    {
      var good: bool, length: nat := *, *;
      if formats { good := true; }
      if !good {
        out.Fail(Failed);
        return false;
      }
      if length == 0 || length > METADATA_BYTES { length := METADATA_BYTES; }
      hide Events, Consecutive, WellFormed, HasFooter, Bytes, Missed, AllReported;
      ok := out.Record(Startup, length);
      assert old(Roomy(METADATA_BYTES)) ==> Wrote(out.lines, old(out.lines), old(out.Next(Startup, length)), ok);
    }

    /** The batches of one pump. */
    method PumpBatches()
      requires Valid() && Live(out.status) && !closed && ledger.held == 0
      modifies this`abandoned, this`droppedFull, this`droppedContention, this`ledger, this`eventsWritten,
               queue, queue.slots, queue.batch, out
      ensures Valid() && ledger.held == 0
      ensures out.reliable && quiet && old(Roomy(EventRoom(PUMP_BATCHES * BATCH_COUNT))) ==>
                && Live(out.status)
                && ledger.written == old(ledger.written)
                     + if old(queue.count) < PUMP_BATCHES * BATCH_COUNT then old(queue.count) else PUMP_BATCHES * BATCH_COUNT
    {
      hide Conserved, Ordered, Bytes;
      var batch := 0;
      while batch < PUMP_BATCHES && Live(out.status)
        invariant Valid() && !closed && ledger.held == 0 && batch <= PUMP_BATCHES
        invariant Bytes(out.lines) <= old(Bytes(out.lines)) + EventRoom(batch * BATCH_COUNT)
        invariant out.reliable && quiet && old(Roomy(EventRoom(PUMP_BATCHES * BATCH_COUNT))) ==>
                    && Live(out.status)
                    && queue.count + ledger.written == old(queue.count) + old(ledger.written)
                    && queue.count == if old(queue.count) < batch * BATCH_COUNT then 0 else old(queue.count) - batch * BATCH_COUNT
        decreases PUMP_BATCHES - batch
      {
        var count := PumpBatch();
        if count == 0 { break; }
        batch := batch + 1;
      }
    }

    /** One turn of the writer thread. */
    method Pump()
      requires Valid() && ledger.held == 0 && !footerWritten
      requires if started then Live(out.status) || closed else Live(out.status)
      modifies this, queue, queue.slots, queue.batch, out
      ensures Valid() && ledger.held == 0
      ensures closed || (Live(out.status) && started && !footerWritten)
      ensures old(closed) ==> closed && ledger == old(ledger) && out.lines == old(out.lines)
    {
      if closed { return; }
      hide Conserved, Ordered, Bytes, Events, HasFooter, WellFormed;
      if !started {
        started := true;
        out.Resume(Recording);
        var begun := WriteStartup();
        if !begun {
          Terminal();
          return;
        }
      }
      Producers();
      PumpBatches();
      if Live(out.status) { Housekeep(); }
      if !Live(out.status) { Terminal(); }
    }

    /** The anchor and the flush that are due. */
    method Housekeep()
      requires Valid() && Live(out.status) && !closed
      modifies out
      ensures Valid()
    {
      hide Conserved, Ordered, Bytes, Events, HasFooter, WellFormed;
      var due: bool := *;
      if due {
        var anchored := WriteAnchor(false);
        if !anchored { return; }
      }
      due := *;
      if due {
        var flushed: bool := *;
        if !flushed { Break(); }
      }
    }

    method Break()
      requires Valid()
      modifies out
      ensures Valid() && !Live(out.status)
    {
      hide Conserved, Bytes, Events, HasFooter, WellFormed;
      out.Fail(Failed);
    }

    /** A requested stop: no footer, and the queue is given up like any other. */
    method Stop()
      requires Valid() && ledger.held == 0 && !closed && Live(out.status)
      modifies this, queue, queue.slots, queue.batch, out
      ensures Valid() && closed && out.status == Stopped && queue.count == 0 && out.lines == old(out.lines)
    {
      hide Conserved, Events, HasFooter;
      out.Resume(Stopped);
      AbandonQueue();
      closed := true;
    }
  }

  /** All lines arrive; only the first one is reported so. */
  function Misreport(overclaims: bool, n: nat, length: nat): Answer {
    Answer(overclaims || n == 0, if overclaims && n > 0 then length + 1 else length, length)
  }

  /** A writer that has written its startup record and has one event in the queue. */
  method Started(overclaims: bool) returns (w: Writer)
    ensures w.Valid() && w.started && w.quiet && w.formats && w.out.status == Recording
    ensures !w.closed && !w.footerWritten && w.queue.count == 1 && w.Roomy(EVENT_BYTES)
    ensures w.ledger == Ledger(1, 0, 0, 0, 0, 0)
    ensures |w.out.lines| == 1 && !w.out.reliable
    ensures w.out.native == ((n: nat, length: nat) => Misreport(overclaims, n, length))
    ensures fresh(w) && fresh(w.out) && fresh(w.queue) && fresh(w.queue.slots) && fresh(w.queue.batch)
  {
    w := new Writer(METADATA_BYTES + EVENT_BYTES + 2 * FOOTER_RESERVE, false,
                    (n: nat, length: nat) => Misreport(overclaims, n, length), true, true);
    w.Publish(7, false);
    w.started := true;
    w.out.Resume(Recording);
    assert Bytes(w.out.lines) == 0;
    hide Events, Bytes, HasFooter, WellFormed, AllReported, Missed;
    var begun := w.WriteStartup();
  }

  /** A run in which the one event published is in the file and is not counted: its write claims
      more than was asked for, or reports a failure for the whole line. */
  method UncountedEvent(overclaims: bool) returns (w: Writer)
    ensures w.Valid() && w.closed && w.eventsWritten == 0 && w.abandoned == 1
    ensures Events(w.out.lines) == [1] && Missed(w.out.lines)
  {
    hide Bytes, HasFooter, WellFormed, AllReported, Events;
    w := Started(overclaims);
    var taken := w.Take();
    var ok := w.WriteEvent(1);
    assert Missed(w.out.lines) by { assert !Reported(w.out.lines[1]) && Complete(w.out.lines[1]); }
    hide Missed;
    w.GiveUp(taken);
    w.Terminal();
    w.EventsAreExact();
  }
}
