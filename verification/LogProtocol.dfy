/** The race between publishing producers and a writer that is ending: any number of producers,
    each between its unlocked look at the status, its one try for the lock, the look and the push
    under it, and its counter. The status changes without the lock, at any moment.
 */
module LogProtocol {

  const CAPACITY: nat := 4096
  const BATCH: nat := 256

  datatype Pc =
    | Look
    | TryLock
    | LockedLook | CheckRoom | Push | Unlock | UnlockAbandoned | UnlockFull      // under the lock
    | CountAbandoned | CountContention | CountFull
    | Enqueued | Done

  datatype WriterPc = Idle | Moving | Unlocking  // a batch is moved under the lock

  datatype Lock = Free | HeldBy(producer: nat) | HeldByWriter

  datatype State = State(
    live: bool,                                  // the status still admits events
    lock: Lock,
    queue: seq<nat>,
    next: nat,                                   // the last sequence given out
    writer: WriterPc,
    batch: seq<nat>,
    output: seq<nat>,
    abandoned: nat, contended: nat, full: nat,
    drained: bool,                               // the final look found the queue empty
    producers: seq<Pc>)

  const INITIAL := State(true, Free, [], 0, Idle, [], [], 0, 0, 0, false, [])

  datatype Step =
    | Offer                                      // a hook begins to publish
    | Produce(producer: nat, refused: bool)
    | TakeLock
    | TakeMove
    | TakeUnlock
    | WriteOne
    | End                                        // a failure or a stop, whatever its cause
    | GiveUp

  predicate Refused(s: State, refused: bool) { refused || s.lock != Free }

  function ProducerPc(s: State, pc: Pc, refused: bool): Pc {
    match pc
    case Look => if s.live then TryLock else CountAbandoned
    case TryLock => if Refused(s, refused) then CountContention else LockedLook
    case LockedLook => if s.live then CheckRoom else UnlockAbandoned
    case CheckRoom => if |s.queue| == CAPACITY then UnlockFull else Push
    case Push => Unlock
    case Unlock => Enqueued
    case UnlockAbandoned => CountAbandoned
    case UnlockFull => CountFull
    case CountAbandoned => Done
    case CountContention => Done
    case CountFull => Done
    case _ => pc
  }

  function ProducerEffect(s: State, i: nat, pc: Pc, refused: bool): State {
    match pc
    case TryLock => if Refused(s, refused) then s else s.(lock := HeldBy(i))
    case Push => s.(queue := s.queue + [s.next + 1], next := s.next + 1)
    case Unlock => s.(lock := Free)
    case UnlockAbandoned => s.(lock := Free)
    case UnlockFull => s.(lock := Free)
    case CountAbandoned => s.(abandoned := s.abandoned + 1)
    case CountContention => s.(contended := s.contended + 1)
    case CountFull => s.(full := s.full + 1)
    case _ => s
  }

  function WriterStep(s: State, step: Step): State
    requires !step.Offer? && !step.Produce?
  {
    match step
    case TakeLock =>
      if s.writer == Idle && s.batch == [] && !s.drained && s.lock == Free then s.(writer := Moving, lock := HeldByWriter) else s
    case TakeMove =>
      if s.writer != Moving then s
      else
        var n := if |s.queue| < BATCH then |s.queue| else BATCH;
        s.(writer := Unlocking, batch := s.queue[..n], queue := s.queue[n..], drained := !s.live && n == 0)
    case TakeUnlock => if s.writer == Unlocking then s.(writer := Idle, lock := Free) else s
    case WriteOne =>
      if s.writer == Idle && s.live && s.batch != [] then s.(output := s.output + [s.batch[0]], batch := s.batch[1..]) else s
    case End => s.(live := false)
    case GiveUp =>
      if s.writer == Idle && !s.live then s.(abandoned := s.abandoned + |s.batch|, batch := []) else s
  }

  function Apply(s: State, step: Step): State {
    match step
    case Offer => s.(producers := s.producers + [Look])
    case Produce(i, refused) =>
      if i < |s.producers| then
        ProducerEffect(s, i, s.producers[i], refused).(producers := s.producers[i := ProducerPc(s, s.producers[i], refused)])
      else s
    case _ => WriterStep(s, step)
  }

  // ---- Invariant ----

  /** Offered and not yet accounted for anywhere. */
  predicate Pending(pc: Pc) { pc != Unlock && pc != Enqueued && pc != Done }

  predicate Inside(pc: Pc) {
    pc == LockedLook || pc == CheckRoom || pc == Push || pc == Unlock || pc == UnlockAbandoned || pc == UnlockFull
  }

  /** Past the look under the lock, and still going to push. */
  predicate Pushing(pc: Pc) { pc == CheckRoom || pc == Push }

  function Count(producers: seq<Pc>): nat {
    if producers == [] then 0 else (if Pending(producers[0]) then 1 else 0) + Count(producers[1..])
  }

  predicate Consecutive(entries: seq<nat>, first: int) {
    forall i :: 0 <= i < |entries| ==> entries[i] == first + i
  }

  /** Whoever is inside holds the lock, and only then is it taken. */
  predicate LockOk(s: State) {
    && (forall i :: 0 <= i < |s.producers| ==> (Inside(s.producers[i]) <==> s.lock == HeldBy(i)))
    && (s.lock == HeldByWriter <==> s.writer != Idle)
    && (s.lock.HeldBy? ==> s.lock.producer < |s.producers|)
    && (forall i :: 0 <= i < |s.producers| && s.producers[i] == Push ==> |s.queue| < CAPACITY)
    && (s.drained ==> forall i :: 0 <= i < |s.producers| ==> !Pushing(s.producers[i]))
  }

  /** Every offered event is somewhere, once, and the sequences are where they should be. */
  predicate Accounted(s: State) {
    && |s.producers| == Count(s.producers) + |s.queue| + |s.batch| + |s.output| + s.abandoned + s.contended + s.full
    && Consecutive(s.output, 1)
    && Consecutive(s.queue, s.next - |s.queue| + 1)
    && |s.queue| <= CAPACITY && |s.batch| <= BATCH
    && (s.writer == Moving ==> s.batch == [])
    && (s.live ==> Consecutive(s.batch, |s.output| + 1) && s.next == |s.output| + |s.batch| + |s.queue|)
    && (s.drained ==> !s.live && s.queue == [] && s.batch == [])
  }

  predicate Inv(s: State) { LockOk(s) && Accounted(s) }

  lemma {:induction false} CountUpdate(producers: seq<Pc>, i: nat, pc: Pc)
    requires i < |producers|
    ensures Count(producers[i := pc]) + (if Pending(producers[i]) then 1 else 0)
         == Count(producers) + (if Pending(pc) then 1 else 0)
  {
    if i == 0 {
      assert producers[i := pc][1..] == producers[1..];
    } else {
      assert producers[i := pc][1..] == producers[1..][i - 1 := pc];
      CountUpdate(producers[1..], i - 1, pc);
    }
  }

  lemma {:induction false} CountAppend(producers: seq<Pc>, pc: Pc)
    ensures Count(producers + [pc]) == Count(producers) + (if Pending(pc) then 1 else 0)
  {
    if producers == [] {
      assert producers + [pc] == [pc] && [pc][1..] == [];
    } else {
      assert (producers + [pc])[1..] == producers[1..] + [pc];
      CountAppend(producers[1..], pc);
    }
  }

  lemma ProduceKeepsLock(s: State, i: nat, refused: bool)
    requires LockOk(s) && |s.queue| <= CAPACITY && (s.drained ==> !s.live) && i < |s.producers|
    ensures LockOk(Apply(s, Produce(i, refused)))
  {
    if Inside(s.producers[i]) { assert s.lock == HeldBy(i); }
  }

  lemma ProduceKeeps(s: State, i: nat, refused: bool)
    requires Inv(s) && i < |s.producers|
    ensures Accounted(Apply(s, Produce(i, refused)))
  {
    CountUpdate(s.producers, i, ProducerPc(s, s.producers[i], refused));
    hide Count;
    if s.producers[i] == Push {
      assert Consecutive(s.queue + [s.next + 1], s.next - |s.queue| + 1);
    } else {
      assert ProducerEffect(s, i, s.producers[i], refused).queue == s.queue;
    }
  }

  /** The final look is made under the lock and after the end: whoever pushed did so before it,
      and whoever looks under the lock after it will not push. */
  lemma TakeKeeps(s: State, step: Step)
    requires Inv(s) && (step.TakeLock? || step.TakeMove? || step.TakeUnlock?)
    ensures Inv(Apply(s, step))
  {
    hide Count;
  }

  lemma WriterKeeps(s: State, step: Step)
    requires Inv(s) && (step.WriteOne? || step.End? || step.GiveUp?)
    ensures Inv(Apply(s, step))
  {
    hide Count;
  }

  lemma StepKeeps(s: State, step: Step)
    requires Inv(s)
    ensures Inv(Apply(s, step))
  {
    match step
    case Offer => CountAppend(s.producers, Look);
    case Produce(i, refused) =>
      if i < |s.producers| {
        ProduceKeepsLock(s, i, refused);
        ProduceKeeps(s, i, refused);
      }
    case WriteOne => WriterKeeps(s, step);
    case End => WriterKeeps(s, step);
    case GiveUp => WriterKeeps(s, step);
    case _ => TakeKeeps(s, step);
  }

  // ---- Runs ----

  datatype Run = Run(states: seq<State>, steps: seq<Step>)

  predicate IsRun(run: Run) {
    && |run.states| == |run.steps| + 1
    && run.states[0] == INITIAL
    && forall k :: 0 <= k < |run.steps| ==> run.states[k + 1] == Apply(run.states[k], run.steps[k])
  }

  lemma InitialOk()
    ensures Inv(INITIAL)
  {
  }

  lemma {:induction false} InvAlways(run: Run, k: nat)
    requires IsRun(run) && k < |run.states|
    ensures Inv(run.states[k])
  {
    hide Apply, Inv;
    assert Inv(INITIAL) by { InitialOk(); }
    if k > 0 {
      InvAlways(run, k - 1);
      StepKeeps(run.states[k - 1], run.steps[k - 1]);
    }
  }

  /** Every offered event is under way, queued, in hand, written, abandoned or dropped; and what
      is written are the first events of the queue, in order and without a gap. */
  lemma EventsConserved(run: Run, k: nat)
    requires IsRun(run) && k < |run.states|
    ensures var s := run.states[k];
            |s.producers| == Count(s.producers) + |s.queue| + |s.batch| + |s.output| + s.abandoned + s.contended + s.full
    ensures Consecutive(run.states[k].output, 1)
  {
    InvAlways(run, k);
  }

  /** When everyone has returned and the queue was drained, every event is counted somewhere public. */
  lemma AllAccounted(run: Run, k: nat)
    requires IsRun(run) && k < |run.states| && run.states[k].drained
    requires forall i :: 0 <= i < |run.states[k].producers| ==> !Pending(run.states[k].producers[i])
    ensures var s := run.states[k]; |s.producers| == |s.output| + s.abandoned + s.contended + s.full
  {
    InvAlways(run, k);
    NonePending(run.states[k].producers);
  }

  lemma {:induction false} NonePending(producers: seq<Pc>)
    requires forall i :: 0 <= i < |producers| ==> !Pending(producers[i])
    ensures Count(producers) == 0
  {
    if producers != [] {
      NonePending(producers[1..]);
    }
  }

  /** One step after the drain. */
  lemma DrainedStays(s: State, step: Step)
    requires Inv(s) && s.drained
    ensures Apply(s, step).drained && Apply(s, step).output == s.output
  {
    hide Count, Consecutive;
  }

  /** After the drain the queue is empty for ever. A producer that saw the status live under the
      lock may still push after the end; the drain waits for it. */
  lemma {:induction false} NothingStranded(run: Run, j: nat, k: nat)
    requires IsRun(run) && j <= k < |run.states| && run.states[j].drained
    ensures run.states[k].drained && !run.states[k].live
    ensures run.states[k].queue == [] && run.states[k].batch == [] && run.states[k].output == run.states[j].output
  {
    hide Inv, Apply;
    InvAlways(run, k);
    if j < k {
      NothingStranded(run, j, k - 1);
      InvAlways(run, k - 1);
      DrainedStays(run.states[k - 1], run.steps[k - 1]);
    }
    DrainedMeans(run.states[k]);
  }

  lemma DrainedMeans(s: State)
    requires Inv(s) && s.drained
    ensures !s.live && s.queue == [] && s.batch == []
  {
  }

  /** A run goes on by any step. */
  lemma Longer(run: Run, step: Step) returns (longer: Run)
    requires IsRun(run)
    ensures IsRun(longer) && run.states <= longer.states && |longer.states| == |run.states| + 1
    ensures longer.states[|run.states|] == Apply(run.states[|run.states| - 1], step)
  {
    hide Apply;
    longer := Run(run.states + [Apply(run.states[|run.states| - 1], step)], run.steps + [step]);
  }

  /** Such a late push is real: the end comes between the look and the push, and the event is
      queued after it. */
  lemma LatePush() returns (run: Run, j: nat)
    ensures IsRun(run) && j + 1 < |run.states|
    ensures !run.states[j].live && run.states[j].queue == [] && run.states[j + 1].queue == [1]
  {
    var go := Produce(0, false);
    run := Run([INITIAL], []);
    assert IsRun(run);
    hide IsRun;
    run := Longer(run, Offer);
    run := Longer(run, go);
    run := Longer(run, go);
    run := Longer(run, go);
    run := Longer(run, End);
    run := Longer(run, go);
    j := 6;
    run := Longer(run, go);
  }
}
