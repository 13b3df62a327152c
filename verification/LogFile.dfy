/** The byte-capped append-only log file: what is in it after any sequence of short, failing and
    lying writes.
 */
module LogFile {

  const ANCHOR_BYTES: nat := 8192
  const EVENT_BYTES: nat := 1024
  const FOOTER_RESERVE: nat := ANCHOR_BYTES
  const COUNTER_MAX: nat := 0x7FFF_FFFF_FFFF_FFFF

  datatype Status = Prepared | Recording | Failed | Truncated | Stopped

  predicate Live(status: Status) { status == Prepared || status == Recording }

  datatype Kind = Startup | EventLine(sequence: nat) | Anchor | Footer

  /** What a native write reports, and how much of the line really reached the file. */
  datatype Answer = Answer(ok: bool, claimed: nat, written: nat)

  /** Only a claim beyond the request is known to be false. */
  function Settled(a: Answer, length: nat): (b: Answer)
    ensures b.written <= length && (b.claimed <= length ==> b.written == b.claimed)
  {
    if a.claimed <= length then a.(written := a.claimed)
    else if a.written <= length then a else a.(written := 0)
  }

  /** One append: the line and its answer. */
  datatype Line = Line(kind: Kind, length: nat, answer: Answer) {
    function written(): nat { answer.written }
  }

  /** A line written in full and reported so. */
  function Good(kind: Kind, length: nat): Line { Line(kind, length, Answer(true, length, length)) }

  predicate Complete(line: Line) { line.written() == line.length }

  /** The write reported success for the whole line. */
  predicate Reported(line: Line) { line.answer.ok && line.answer.claimed == line.length }

  /** An event is wholly in the file although its write did not report that. */
  predicate Missed(lines: seq<Line>) {
    exists i :: 0 <= i < |lines| && lines[i].kind.EventLine? && Complete(lines[i]) && !Reported(lines[i])
  }

  predicate Whole(line: Line) { line.written() == 0 || Complete(line) }

  function Bytes(lines: seq<Line>): nat {
    if lines == [] then 0 else Bytes(lines[..|lines| - 1]) + lines[|lines| - 1].written()
  }

  /** The queue sequences of the complete event lines, in file order. */
  function Events(lines: seq<Line>): seq<nat> {
    if lines == [] then []
    else
      var last := lines[|lines| - 1];
      Events(lines[..|lines| - 1])
      + if last.kind.EventLine? && Complete(last) && last.length > 0 then [last.kind.sequence] else []
  }

  predicate HasFooter(lines: seq<Line>) {
    exists i :: 0 <= i < |lines| && lines[i].kind == Footer
  }

  /** Every line was written in full and reported so. */
  predicate AllReported(lines: seq<Line>) {
    forall i :: 0 <= i < |lines| ==> Complete(lines[i]) && Reported(lines[i])
  }

  /** Nothing follows an unfinished line, and nothing follows the footer. */
  predicate WellFormed(lines: seq<Line>) {
    forall i :: 0 <= i < |lines| - 1 ==> Whole(lines[i]) && lines[i].kind != Footer
  }

  lemma AppendLine(lines: seq<Line>, line: Line)
    ensures Bytes(lines + [line]) == Bytes(lines) + line.written()
    ensures Events(lines + [line]) == Events(lines)
              + if line.kind.EventLine? && Complete(line) && line.length > 0 then [line.kind.sequence] else []
    ensures HasFooter(lines + [line]) <==> HasFooter(lines) || line.kind == Footer
    ensures HasFooter(lines) || (forall i :: 0 <= i < |lines| ==> lines[i].kind != Footer)
    ensures Missed(lines + [line]) <==> Missed(lines) || (line.kind.EventLine? && Complete(line) && !Reported(line))
  {
    var longer := lines + [line];
    assert longer[..|longer| - 1] == lines;
    hide HasFooter, Missed, Complete, Reported;
    AppendFooter(lines, line);
    AppendMissed(lines, line);
  }

  lemma AppendFooter(lines: seq<Line>, line: Line)
    ensures HasFooter(lines + [line]) <==> HasFooter(lines) || line.kind == Footer
    ensures HasFooter(lines) || (forall i :: 0 <= i < |lines| ==> lines[i].kind != Footer)
  {
    var longer := lines + [line];
    if line.kind == Footer { assert longer[|lines|].kind == Footer; }
    if i :| 0 <= i < |lines| && lines[i].kind == Footer { assert longer[i].kind == Footer; }
  }

  lemma AppendMissed(lines: seq<Line>, line: Line)
    ensures Missed(lines + [line]) <==> Missed(lines) || (line.kind.EventLine? && Complete(line) && !Reported(line))
  {
    hide Complete, Reported;
    var longer := lines + [line];
    if i :| 0 <= i < |lines| && lines[i].kind.EventLine? && Complete(lines[i]) && !Reported(lines[i]) {
      assert longer[i] == lines[i];
    }
    assert longer[|lines|] == line;
  }

  lemma ReportedIsNotMissed(lines: seq<Line>)
    requires AllReported(lines)
    ensures !Missed(lines)
  {
  }

  /** Saturating addition of the diagnostic counters. */
  function Add64(before: nat, delta: nat): (after: nat)
    requires before <= COUNTER_MAX
    ensures after <= COUNTER_MAX
  {
    if delta > COUNTER_MAX - before then COUNTER_MAX else before + delta
  }

  /** What a saturating counter shows of a true count. */
  function Shown(count: nat): nat { if count > COUNTER_MAX then COUNTER_MAX else count }

  lemma AddShown(count: nat, delta: nat)
    ensures Add64(Shown(count), delta) == Shown(count + delta)
  {
  }

  /** Two answers leave an event in the file and out of the count: a failure reported for the
      whole line, and a claim beyond it when all of it arrived. */
  lemma MissedAnswers(a: Answer, length: nat)
    ensures var line := Line(Anchor, length, Settled(a, length));
            Complete(line) && !Reported(line) <==>
              (a.claimed == length && !a.ok) || (a.claimed > length && Settled(a, length).written == length)
  {
  }

  class OutputFile {
    const limit: nat
    const reliable: bool         // every write succeeds
    const native: (nat, nat) -> Answer   // what the n-th write answers to a length otherwise
    var status: Status
    var bytesWritten: nat
    var partialTail: bool
    var lines: seq<Line>         // the file

    ghost predicate Valid()
      reads this
    {
      && 2 * FOOTER_RESERVE <= limit <= COUNTER_MAX
      && bytesWritten <= Bytes(lines) && (!partialTail ==> bytesWritten == Bytes(lines))
      && Bytes(lines) + (if HasFooter(lines) then 0 else FOOTER_RESERVE) <= limit
      && WellFormed(lines)
      && (!partialTail ==> forall i :: 0 <= i < |lines| ==> Whole(lines[i]))
      && (Live(status) ==> !partialTail && !HasFooter(lines) && AllReported(lines))
    }

    constructor (limit: nat, reliable: bool, native: (nat, nat) -> Answer)
      requires 2 * FOOTER_RESERVE <= limit <= COUNTER_MAX
      ensures Valid() && status == Prepared && lines == []
      ensures this.limit == limit && this.reliable == reliable && this.native == native
    {
      this.native := native;
      this.limit, this.reliable, status, bytesWritten, partialTail, lines := limit, reliable, Prepared, 0, false, [];
    }

    /** The first failure is the one reported. */
    method Fail(next: Status)
      requires !Live(next)
      modifies this`status
      ensures status == if Live(old(status)) then next else old(status)
      ensures old(Valid()) ==> Valid()
    {
      if status == Recording || status == Prepared { status := next; }
    }

    method Resume(next: Status)
      requires Valid() && Live(status) && (Live(next) || next == Stopped)
      modifies this`status
      ensures Valid() && status == next
    {
      status := next;
    }

    /** The line the next append will leave. */
    function Next(kind: Kind, length: nat): (line: Line)
      reads this`lines
      ensures line.kind == kind && line.length == length >= line.written()
      ensures line.answer.claimed <= length ==> line.written() == line.answer.claimed
    {
      Line(kind, length, if reliable then Answer(true, length, length) else Settled(native(|lines|, length), length))
    }

    /** The native append. */
    method Append(kind: Kind, length: nat) returns (ok: bool, claimed: nat)
      modifies this`lines
      ensures lines == old(lines) + [old(Next(kind, length))]
      ensures ok == old(Next(kind, length)).answer.ok && claimed == old(Next(kind, length)).answer.claimed
    {
      var line := Next(kind, length);
      lines := lines + [line];
      return line.answer.ok, line.answer.claimed;
    }

    /** One record. Everything but the footer stays clear of the reserved tail; after an
        unfinished line there is no further record. */
    method WriteRecord(kind: Kind, length: nat) returns (ok: bool)
      requires Valid() && length > 0
      requires kind != Footer ==> Live(status)
      requires kind == Footer ==> !Live(status) && !partialTail && !HasFooter(lines)
      modifies this`status, this`bytesWritten, this`partialTail, this`lines
      ensures Valid()
      ensures ok ==> lines == old(lines) + [Good(kind, length)] && status == old(status)
      ensures !ok && kind != Footer ==> !Live(status)
      ensures kind == Footer ==> status == old(status)
      ensures Fits(kind, length, old(bytesWritten)) ==>
                lines == old(lines) + [old(Next(kind, length))] && ok == Reported(old(Next(kind, length)))
      ensures !Fits(kind, length, old(bytesWritten)) ==> !ok && lines == old(lines) && (kind != Footer ==> status == Truncated)
      ensures reliable ==> ok == Fits(kind, length, old(bytesWritten))
      ensures kind == Footer && length <= FOOTER_RESERVE ==> Fits(kind, length, old(bytesWritten))
      ensures partialTail ==> |lines| > |old(lines)|
    {
      var cap := limit - (if kind == Footer then 0 else FOOTER_RESERVE);
      if length > cap || bytesWritten > cap - length {
        if kind != Footer { Fail(Truncated); }
        return false;
      }
      ok := Put(kind, length);
    }

    /** The same record, in terms of what a reader of the file will find: an event is there if its
        write was reported in full, and also if all of it arrived without being reported so. */
    method Record(kind: Kind, length: nat) returns (ok: bool)
      requires Valid() && length > 0
      requires kind != Footer ==> Live(status)
      requires kind == Footer ==> !Live(status) && !partialTail && !HasFooter(lines)
      modifies this`status, this`bytesWritten, this`partialTail, this`lines
      ensures Valid()
      ensures ok ==> status == old(status) && lines == old(lines) + [Good(kind, length)]
      ensures !ok && kind != Footer ==> !Live(status)
      ensures kind == Footer ==> status == old(status)
      ensures lines == old(lines) || (lines == old(lines) + [old(Next(kind, length))] && ok == Reported(old(Next(kind, length))))
      ensures old(Bytes(lines)) + length + FOOTER_RESERVE <= limit ==> |lines| == |old(lines)| + 1
      ensures kind.EventLine? ==> !Missed(old(lines)) && !(ok && Missed(lines))
      ensures kind.EventLine? ==> Events(lines) == Events(old(lines)) + if ok || Missed(lines) then [kind.sequence] else []
      ensures !kind.EventLine? ==> Events(lines) == Events(old(lines)) && Missed(lines) == Missed(old(lines))
      ensures kind != Footer ==> !HasFooter(lines)
      ensures kind == Footer && length <= FOOTER_RESERVE ==> HasFooter(lines)
      ensures Bytes(lines) <= old(Bytes(lines)) + length
      ensures reliable && (kind == Footer || old(Bytes(lines)) + length + FOOTER_RESERVE <= limit) && length <= FOOTER_RESERVE ==> ok
    {
      ghost var was, line := lines, Next(kind, length);
      assert kind != Footer ==> !HasFooter(was) && bytesWritten == Bytes(lines);
      if kind != Footer { ReportedIsNotMissed(was); }
      ok := WriteRecord(kind, length);
      if |lines| > |was| {
        AppendLine(was, line);
      }
    }

    /** The append and what it leaves in the counters. */
    method Put(kind: Kind, length: nat) returns (ok: bool)
      requires Valid() && length > 0 && Fits(kind, length, bytesWritten)
      requires if kind == Footer then !Live(status) && !partialTail && !HasFooter(lines) else Live(status)
      modifies this`status, this`bytesWritten, this`partialTail, this`lines
      ensures Valid()
      ensures lines == old(lines) + [old(Next(kind, length))] && ok == Reported(old(Next(kind, length)))
      ensures ok ==> old(Next(kind, length)) == Good(kind, length) && status == old(status)
      ensures !ok && kind != Footer ==> !Live(status)
      ensures kind == Footer ==> status == old(status)
      ensures reliable ==> ok
    {
      ghost var was := lines;
      ghost var line := Next(kind, length);
      assert !HasFooter(was) && forall i :: 0 <= i < |was| ==> Whole(was[i]);
      var claimed;
      ok, claimed := Append(kind, length);
      AppendLine(was, line);
      assert WellFormed(lines) && lines[|was|] == line && lines[..|was|] == was;
      assert Complete(line) && Reported(line) ==> Live(status) ==> AllReported(lines);
      assert Whole(line) ==> forall i :: 0 <= i < |lines| ==> Whole(lines[i]);
      assert claimed <= length ==> (Whole(line) <==> claimed == 0 || claimed == length) && (Complete(line) <==> claimed == length);
      assert Reported(line) <==> ok && claimed == length;
      assert Reported(line) ==> line == Good(kind, length);
      hide HasFooter, Bytes, Events, WellFormed, Complete, Whole, Missed, AllReported, Reported;
      if claimed > length {
        partialTail := true;
        Fail(Failed);
        return false;
      }
      bytesWritten := Add64(bytesWritten, claimed);
      if !ok || claimed != length {
        partialTail := claimed != 0 && claimed != length;
        Fail(Failed);
        return false;
      }
    }

    predicate Fits(kind: Kind, length: nat, used: nat)
      requires limit >= FOOTER_RESERVE
    {
      used + length <= limit - if kind == Footer then 0 else FOOTER_RESERVE
    }
  }
}
