/** The one-shot measurement of the time a callback spends in its own code: an automaton that is
    driven by calls with arbitrary clock readings, and the history of those calls as its meaning.
 */
module CallbackTiming {

  const CLOCK_MAX: nat := 0x7FFF_FFFF_FFFF_FFFF

  datatype Phase = NotEntered | InProgress | CompleteValid | CompleteInvalid

  datatype Segment = NoSegment | Own | Native | Filter

  datatype Call = Claim | EnterNative | LeaveNative | BeginFilter | EndFilter | BeginUnwind | Finalize | Invalidate

  datatype Entry = Entry(call: Call, sound: bool, qpc: nat)

  // ---- What a history means ----

  datatype Mode = Idle | InOwn | InNative | InFilter(own: bool) | Done | Broken

  function Next(mode: Mode, call: Call): Mode {
    match call
    case Claim => if mode == Idle then InOwn else Broken
    case EnterNative => if mode == InOwn then InNative else Broken
    case LeaveNative => if mode == InNative then InOwn else Broken
    case BeginFilter => if mode == InOwn then InFilter(true) else if mode == InNative then InFilter(false) else Broken
    case EndFilter => if mode.InFilter? then if mode.own then InOwn else InNative else Broken
    case BeginUnwind => if mode == InOwn || mode == InNative then InOwn else Broken
    case Finalize => if mode == InOwn then Done else Broken
    case Invalidate => Broken
  }

  /** Where the calls alone lead. */
  function Walk(history: seq<Entry>): Mode {
    if history == [] then Idle else Next(Walk(history[..|history| - 1]), history[|history| - 1].call)
  }

  /** Every reading is a real one, and time does not run backwards. */
  predicate Clocks(history: seq<Entry>) {
    forall i :: 0 <= i < |history| ==>
      && history[i].sound && 0 < history[i].qpc <= CLOCK_MAX
      && (i > 0 ==> history[i - 1].qpc <= history[i].qpc)
  }

  predicate Legal(history: seq<Entry>) { Clocks(history) && Walk(history) != Broken }

  /** The stretch that ends with entry i was spent in the callback's own code or in its filter. */
  predicate InCallback(history: seq<Entry>, i: nat)
    requires 0 < i < |history|
  {
    Walk(history[..i]) == InOwn || Walk(history[..i]).InFilter?
  }

  /** ... and is measured: an unwind drops the own stretch it finds open. */
  predicate Measured(history: seq<Entry>, i: nat)
    requires 0 < i < |history|
  {
    InCallback(history, i) && !(Walk(history[..i]) == InOwn && history[i].call == BeginUnwind)
  }

  function Length(history: seq<Entry>, i: nat): int
    requires 0 < i < |history|
  {
    history[i].qpc - history[i - 1].qpc
  }

  /** The sum of the measured stretches. Stretches follow one another, so they are disjoint. */
  function Ticks(history: seq<Entry>): int {
    if |history| <= 1 then 0
    else
      var last := |history| - 1;
      Ticks(history[..last]) + if Measured(history, last) then Length(history, last) else 0
  }

  /** The sum of all stretches in the callback, measured or dropped. */
  function CallbackTime(history: seq<Entry>): int {
    if |history| <= 1 then 0
    else
      var last := |history| - 1;
      CallbackTime(history[..last]) + if InCallback(history, last) then Length(history, last) else 0
  }

  predicate DroppedAt(history: seq<Entry>, i: nat)
    requires 0 < i < |history|
  {
    InCallback(history, i) && !Measured(history, i) && Length(history, i) > 0
  }

  /** Some own stretch of positive length was open when an unwind began. */
  predicate Dropped(history: seq<Entry>) {
    exists i :: 0 < i < |history| && DroppedAt(history, i)
  }

  lemma {:induction false} WithinWholeSpan(history: seq<Entry>)
    requires Clocks(history) && history != []
    ensures 0 <= Ticks(history) <= CallbackTime(history) <= history[|history| - 1].qpc - history[0].qpc
  {
    if |history| > 1 {
      var before := history[..|history| - 1];
      assert forall i :: 0 <= i < |before| ==> before[i] == history[i];
      WithinWholeSpan(before);
    }
  }

  /** A prefix walks as far as the whole did at that point. */
  lemma SamePast(history: seq<Entry>, before: seq<Entry>, i: nat)
    requires |history| > 0 && before == history[..|history| - 1] && 0 < i < |before|
    ensures DroppedAt(before, i) == DroppedAt(history, i)
  {
    assert before[..i] == history[..i];
  }

  lemma DroppedBefore(history: seq<Entry>)
    requires |history| > 1
    ensures Dropped(history) <==> Dropped(history[..|history| - 1]) || DroppedAt(history, |history| - 1)
  {
    var before := history[..|history| - 1];
    forall i | 0 < i < |before|
      ensures DroppedAt(before, i) == DroppedAt(history, i)
    {
      SamePast(history, before, i);
    }
    hide DroppedAt;
    if Dropped(before) {
      var i :| 0 < i < |before| && DroppedAt(before, i);
      assert DroppedAt(history, i);
    }
    if Dropped(history) {
      var i :| 0 < i < |history| && DroppedAt(history, i);
      assert i < |before| ==> DroppedAt(before, i);
    }
  }

  /** The measurement is all the time in the callback if and only if no unwind dropped any. */
  lemma {:induction false} ExactUnlessDropped(history: seq<Entry>)
    requires Clocks(history)
    ensures Ticks(history) == CallbackTime(history) <==> !Dropped(history)
    ensures Ticks(history) <= CallbackTime(history)
  {
    if |history| > 1 {
      var before := history[..|history| - 1];
      assert Clocks(before);
      ExactUnlessDropped(before);
      DroppedBefore(history);
      assert Length(history, |history| - 1) >= 0;
      hide Walk, Dropped, InCallback, Clocks;
    }
  }

  /** The order in which a guard with a search filter makes its calls: an unwind begins only after
      a filter has ended. */
  predicate FilterFirst(history: seq<Entry>) {
    forall i :: 0 < i < |history| && history[i].call == BeginUnwind ==> history[i - 1].call == EndFilter
  }

  /** The stretch that ends with entry i lies between the end of a filter of own code and the
      unwind after it: the exception is being dispatched. */
  predicate Dispatching(history: seq<Entry>, i: nat)
    requires 0 < i < |history|
  {
    Walk(history[..i]) == InOwn && history[i - 1].call == EndFilter && history[i].call == BeginUnwind
  }

  function DispatchTime(history: seq<Entry>): int {
    if |history| <= 1 then 0
    else
      var last := |history| - 1;
      DispatchTime(history[..last]) + if Dispatching(history, last) then Length(history, last) else 0
  }

  /** In that order, what an unwind drops is the dispatch of the exception, and nothing else. */
  lemma {:induction false} DroppedIsDispatch(history: seq<Entry>)
    requires FilterFirst(history)
    ensures Ticks(history) == CallbackTime(history) - DispatchTime(history)
  {
    if |history| > 1 {
      var before := history[..|history| - 1];
      assert forall i :: 0 <= i < |before| ==> before[i] == history[i];
      DroppedIsDispatch(before);
    }
  }

  lemma Longer(history: seq<Entry>, e: Entry)
    requires history != []
    ensures Walk(history + [e]) == Next(Walk(history), e.call)
    ensures CallbackTime(history + [e]) == CallbackTime(history) +
              if Walk(history) == InOwn || Walk(history).InFilter? then e.qpc - history[|history| - 1].qpc else 0
    ensures Ticks(history + [e]) == Ticks(history) +
              if Counts(Walk(history), e.call) then e.qpc - history[|history| - 1].qpc else 0
  {
    hide Walk;
    ExtendWalk(history, e);
    ExtendTicks(history, e);
    var longer := history + [e];
    assert longer[..|history|] == history && longer[|history| - 1] == history[|history| - 1];
  }

  /** It can happen in that order: claimed at 1, filtered from 4 to 5, unwound at 8, finished at 10. */
  lemma DroppedExample() returns (history: seq<Entry>)
    ensures Legal(history) && Walk(history) == Done && FilterFirst(history) && Dropped(history)
    ensures Ticks(history) == 6 && CallbackTime(history) == 9
  {
    var h1 := [Entry(Claim, true, 1)];
    assert h1[..0] == [] && Walk(h1) == InOwn && Ticks(h1) == CallbackTime(h1) == 0;
    hide Walk, Ticks, CallbackTime;
    var h2 := h1 + [Entry(BeginFilter, true, 4)];
    Longer(h1, Entry(BeginFilter, true, 4));
    var h3 := h2 + [Entry(EndFilter, true, 5)];
    Longer(h2, Entry(EndFilter, true, 5));
    var h4 := h3 + [Entry(BeginUnwind, true, 8)];
    Longer(h3, Entry(BeginUnwind, true, 8));
    history := h4 + [Entry(Finalize, true, 10)];
    Longer(h4, Entry(Finalize, true, 10));
    ExactUnlessDropped(history);
  }

  lemma ExtendWalk(history: seq<Entry>, e: Entry)
    ensures Walk(history + [e]) == Next(Walk(history), e.call)
  {
    assert (history + [e])[..|history|] == history;
  }

  lemma ExtendClocks(history: seq<Entry>, e: Entry)
    ensures Clocks(history + [e]) <==>
              Clocks(history) && e.sound && 0 < e.qpc <= CLOCK_MAX
              && (history != [] ==> history[|history| - 1].qpc <= e.qpc)
  {
    var longer := history + [e];
    assert forall i :: 0 <= i < |history| ==> longer[i] == history[i];
    assert longer[|history|] == e;
    if Clocks(longer) {
      assert forall i :: 0 <= i < |history| ==> history[i] == longer[i];
    }
  }

  lemma ExtendTicks(history: seq<Entry>, e: Entry)
    ensures Ticks(history + [e]) == Ticks(history) +
              if history != [] && (Walk(history) == InOwn || Walk(history).InFilter?)
                 && !(Walk(history) == InOwn && e.call == BeginUnwind)
              then e.qpc - history[|history| - 1].qpc else 0
  {
    hide Walk;
    var longer := history + [e];
    assert longer[..|history|] == history;
    if history != [] { assert longer[|history| - 1] == history[|history| - 1]; }
  }

  // ---- The measurement ----

  datatype Sample = Sample(
    phase: Phase, segment: Segment, filterParent: Segment,
    ticks: nat, lastQpc: nat, segmentStartQpc: nat, invalid: bool)

  const FRESH := Sample(NotEntered, NoSegment, NoSegment, 0, 0, 0, false)

  /** A reading that can end or begin a stretch. */
  predicate Usable(t: Sample, sound: bool, qpc: nat) {
    sound && 0 < qpc <= CLOCK_MAX && (t.lastQpc != 0 ==> qpc >= t.lastQpc)
  }

  function Endpoint(t: Sample, sound: bool, qpc: nat): Sample {
    if Usable(t, sound, qpc) then t.(lastQpc := qpc) else t.(invalid := true)
  }

  /** Closing a stretch is guarded against every way the sum could go wrong. */
  function CloseOwn(t: Sample, qpc: nat): Sample {
    if t.invalid then t
    else if t.segmentStartQpc == 0 || qpc < t.segmentStartQpc || t.ticks > CLOCK_MAX then t.(invalid := true)
    else if qpc - t.segmentStartQpc > CLOCK_MAX - t.ticks then t.(invalid := true)
    else t.(ticks := t.ticks + (qpc - t.segmentStartQpc))
  }

  function BeginOwn(t: Sample, sound: bool, qpc: nat): Sample {
    Endpoint(t, sound, qpc).(segment := Own, segmentStartQpc := if Usable(t, sound, qpc) then qpc else 0)
  }

  function Claimed(t: Sample, e: Entry): Sample {
    BeginOwn(t.(phase := InProgress, invalid := t.(phase := NotEntered) != FRESH), e.sound, e.qpc)
  }

  function Finished(t: Sample, e: Entry): Sample {
    var ended := Endpoint(t, e.sound, e.qpc);
    var closed := if t.segment != Own || t.filterParent != NoSegment then ended.(invalid := true) else CloseOwn(ended, e.qpc);
    Sample(if closed.invalid then CompleteInvalid else CompleteValid, NoSegment, NoSegment,
           if closed.invalid then 0 else closed.ticks, closed.lastQpc, 0, closed.invalid)
  }

  function Filtered(t: Sample, e: Entry): Sample {
    var ended := Endpoint(t, e.sound, e.qpc);
    (if t.segment == Own then CloseOwn(ended, e.qpc) else ended)
    .(filterParent := t.segment, segment := Filter, segmentStartQpc := if Usable(t, e.sound, e.qpc) then e.qpc else 0)
  }

  function Unfiltered(t: Sample, e: Entry): Sample {
    CloseOwn(Endpoint(t, e.sound, e.qpc), e.qpc)
    .(segment := t.filterParent, filterParent := NoSegment,
      segmentStartQpc := if t.filterParent == Own && Usable(t, e.sound, e.qpc) then e.qpc else 0)
  }

  predicate InCode(t: Sample) { (t.segment == Own || t.segment == Native) && t.filterParent == NoSegment }

  function Apply(t: Sample, e: Entry): Sample {
    if e.call == Claim then if t.phase == NotEntered then Claimed(t, e) else t
    else if t.phase != InProgress then t
    else match e.call
         case EnterNative =>
           if t.segment == Own && t.filterParent == NoSegment then
             CloseOwn(Endpoint(t, e.sound, e.qpc), e.qpc).(segment := Native, segmentStartQpc := 0)
           else t.(invalid := true)
         case LeaveNative =>
           if t.segment == Native && t.filterParent == NoSegment then BeginOwn(t, e.sound, e.qpc) else t.(invalid := true)
         case BeginFilter => if InCode(t) then Filtered(t, e) else t.(invalid := true)
         case EndFilter =>
           if t.segment == Filter && (t.filterParent == Own || t.filterParent == Native) then Unfiltered(t, e)
           else t.(invalid := true)
         case BeginUnwind =>
           if InCode(t) then BeginOwn(Endpoint(t, e.sound, e.qpc), e.sound, e.qpc) else t.(invalid := true)
         case Finalize => Finished(t, e)
         case _ => t.(invalid := true)
  }

  function After(t: Sample, calls: seq<Entry>): Sample {
    if calls == [] then t else Apply(After(t, calls[..|calls| - 1]), calls[|calls| - 1])
  }

  /** The calls that are heard: from the first claim to the first finalization after it. */
  function Heard(calls: seq<Entry>): seq<Entry> {
    if calls == [] then [] else Hear(Heard(calls[..|calls| - 1]), calls[|calls| - 1])
  }

  function Hear(history: seq<Entry>, e: Entry): seq<Entry> {
    if history == [] then if e.call == Claim then [e] else []
    else if Over(history) || e.call == Claim then history
    else history + [e]
  }

  predicate Over(history: seq<Entry>) { history != [] && history[|history| - 1].call == Finalize }

  // ---- What the measurement means ----

  function LastQpc(history: seq<Entry>): nat {
    if history == [] then 0 else history[|history| - 1].qpc
  }

  /** The fields of a measurement that is still good. */
  predicate Running(t: Sample, mode: Mode, ticks: int, last: nat) {
    && !t.invalid && t.ticks == ticks <= last && t.lastQpc == last && 0 < last <= CLOCK_MAX
    && (t.segment == Own || t.segment == Filter ==> t.segmentStartQpc == last)
    && (mode == InOwn || mode == InNative || mode.InFilter?)
    && (mode == InOwn <==> t.segment == Own && t.filterParent == NoSegment)
    && (mode == InNative <==> t.segment == Native && t.filterParent == NoSegment)
    && (mode == InFilter(true) <==> t.segment == Filter && t.filterParent == Own)
    && (mode == InFilter(false) <==> t.segment == Filter && t.filterParent == Native)
  }

  /** The sample says of the history what the history is. */
  predicate Tells(t: Sample, history: seq<Entry>) {
    && (history == [] ==> t == FRESH)
    && (history != [] && !Over(history) ==>
          && t.phase == InProgress && (t.invalid <==> !Legal(history))
          && (Legal(history) ==> Running(t, Walk(history), Ticks(history), LastQpc(history))))
    && (Over(history) ==>
          && t.phase == (if Legal(history) then CompleteValid else CompleteInvalid)
          && (t.invalid <==> !Legal(history))
          && t.ticks == if Legal(history) then Ticks(history) else 0)
  }

  /** On a measurement that is still good no overflow guard can fire. */
  lemma NoOverflow(t: Sample, mode: Mode, ticks: int, last: nat, sound: bool, qpc: nat)
    requires Running(t, mode, ticks, last) && (t.segment == Own || t.segment == Filter) && Usable(t, sound, qpc)
    ensures CloseOwn(Endpoint(t, sound, qpc), qpc) == t.(lastQpc := qpc, ticks := t.ticks + (qpc - last))
  {
  }

  /** One call on a good measurement, in terms of the mode alone. */
  lemma RunningStep(t: Sample, mode: Mode, ticks: int, last: nat, e: Entry)
    requires Running(t, mode, ticks, last) && t.phase == InProgress && e.call != Claim && e.call != Finalize
    ensures var u := Apply(t, e);
            && u.phase == InProgress
            && (u.invalid <==> !(Usable(t, e.sound, e.qpc) && Next(mode, e.call) != Broken))
            && (!u.invalid ==>
                  Running(u, Next(mode, e.call),
                          ticks + (if Counts(mode, e.call) then e.qpc - last else 0), e.qpc))
  {
    if (t.segment == Own || t.segment == Filter) && Usable(t, e.sound, e.qpc) {
      NoOverflow(t, mode, ticks, last, e.sound, e.qpc);
    }
  }

  predicate Counts(mode: Mode, call: Call) {
    (mode == InOwn || mode.InFilter?) && !(mode == InOwn && call == BeginUnwind)
  }

  lemma InvalidStays(t: Sample, e: Entry)
    requires t.invalid && t.phase == InProgress && e.call != Claim && e.call != Finalize
    ensures Apply(t, e).invalid && Apply(t, e).phase == InProgress
  {
  }

  lemma FinishStep(t: Sample, mode: Mode, ticks: int, last: nat, e: Entry)
    requires Running(t, mode, ticks, last) && t.phase == InProgress && e.call == Finalize
    ensures var u := Apply(t, e);
            && (u.invalid <==> !(Usable(t, e.sound, e.qpc) && mode == InOwn))
            && u.phase == (if u.invalid then CompleteInvalid else CompleteValid)
            && u.ticks == if u.invalid then 0 else ticks + (e.qpc - last)
  {
    if mode == InOwn && Usable(t, e.sound, e.qpc) {
      NoOverflow(t, mode, ticks, last, e.sound, e.qpc);
    }
  }

  /** What appending an entry does to the meaning. */
  lemma Extend(history: seq<Entry>, e: Entry)
    requires history != []
    ensures Walk(history + [e]) == Next(Walk(history), e.call)
    ensures Legal(history + [e]) <==>
              Legal(history) && e.sound && 0 < e.qpc <= CLOCK_MAX && LastQpc(history) <= e.qpc
              && Next(Walk(history), e.call) != Broken
    ensures Ticks(history + [e]) == Ticks(history) + if Counts(Walk(history), e.call) then e.qpc - LastQpc(history) else 0
    ensures LastQpc(history + [e]) == e.qpc && Over(history + [e]) == (e.call == Finalize)
  {
    ExtendWalk(history, e);
    ExtendClocks(history, e);
    ExtendTicks(history, e);
  }

  lemma HearFirst(e: Entry)
    requires e.call == Claim
    ensures Tells(Apply(FRESH, e), [e])
  {
    ExtendWalk([], e);
    assert [] + [e] == [e];
  }

  lemma HearNext(t: Sample, history: seq<Entry>, e: Entry)
    requires Tells(t, history) && history != [] && !Over(history) && e.call != Claim
    ensures Tells(Apply(t, e), history + [e])
  {
    var mode, ticks, last := Walk(history), Ticks(history), LastQpc(history);
    var longer := history + [e];
    Extend(history, e);
    hide Walk, Clocks, Ticks, Legal, Apply, Over, LastQpc;
    if t.invalid {
      if e.call == Finalize { FinishInvalid(t, e); } else { InvalidStays(t, e); }
    } else if e.call == Finalize {
      FinishStep(t, mode, ticks, last, e);
    } else {
      RunningStep(t, mode, ticks, last, e);
    }
  }

  lemma HearStep(t: Sample, history: seq<Entry>, e: Entry)
    requires Tells(t, history)
    ensures Tells(Apply(t, e), Hear(history, e))
  {
    if history == [] {
      if e.call == Claim { HearFirst(e); }
    } else if !Over(history) && e.call != Claim {
      HearNext(t, history, e);
    }
  }

  lemma FinishInvalid(t: Sample, e: Entry)
    requires t.invalid && t.phase == InProgress && e.call == Finalize
    ensures Apply(t, e).invalid && Apply(t, e).phase == CompleteInvalid && Apply(t, e).ticks == 0
  {
  }

  /** For every sequence of calls in any order, with any readings: the sample is valid exactly if
      what was heard is legal, and then shows the sum of the measured stretches. */
  lemma {:induction false} SampleTellsHistory(calls: seq<Entry>)
    ensures Tells(After(FRESH, calls), Heard(calls))
  {
    if calls != [] {
      SampleTellsHistory(calls[..|calls| - 1]);
      HearStep(After(FRESH, calls[..|calls| - 1]), Heard(calls[..|calls| - 1]), calls[|calls| - 1]);
    }
  }

  /** A valid sample never shows more than the time between its first and its last reading. */
  lemma ValidIsWithinSpan(calls: seq<Entry>)
    requires After(FRESH, calls).phase == CompleteValid
    ensures Heard(calls) != [] && Legal(Heard(calls)) && Walk(Heard(calls)) == Done
    ensures After(FRESH, calls).ticks == Ticks(Heard(calls)) <= LastQpc(Heard(calls)) - Heard(calls)[0].qpc
  {
    SampleTellsHistory(calls);
    var h := Heard(calls);
    WithinWholeSpan(h);
    assert Over(h) && Walk(h) == Next(Walk(h[..|h| - 1]), Finalize);
  }

  /** A completed sample never changes again. */
  lemma {:induction false} CompletedIsFrozen(t: Sample, calls: seq<Entry>)
    requires t.phase == CompleteValid || t.phase == CompleteInvalid
    ensures After(t, calls) == t
  {
    if calls != [] {
      CompletedIsFrozen(t, calls[..|calls| - 1]);
    }
  }

  /** A sample that was not zero when claimed can never become valid. */
  lemma {:induction false} DirtyNeverValid(t: Sample, calls: seq<Entry>)
    requires t.phase == NotEntered && t != FRESH
    ensures After(t, calls).phase != CompleteValid
    ensures After(t, calls).phase == NotEntered ==> After(t, calls) == t
    ensures After(t, calls).phase != NotEntered ==> After(t, calls).invalid
  {
    if calls != [] {
      var before, e := After(t, calls[..|calls| - 1]), calls[|calls| - 1];
      DirtyNeverValid(t, calls[..|calls| - 1]);
      if before.phase == InProgress && e.call != Claim {
        if e.call == Finalize { FinishInvalid(before, e); } else { InvalidStays(before, e); }
      }
    }
  }

  // ---- The operations on the object ----

  class Timing {
    var phase: Phase
    var segment: Segment
    var filterParent: Segment
    var ticks: nat
    var lastQpc: nat
    var segmentStartQpc: nat
    var invalid: bool

    constructor ()
      ensures View() == FRESH
    {
      phase, segment, filterParent, ticks, lastQpc, segmentStartQpc, invalid := NotEntered, NoSegment, NoSegment, 0, 0, 0, false;
    }

    function View(): Sample
      reads this
    {
      Sample(phase, segment, filterParent, ticks, lastQpc, segmentStartQpc, invalid)
    }

    method TakeEndpoint(sound: bool, qpc: nat) returns (ok: bool)
      modifies this
      ensures View() == Endpoint(old(View()), sound, qpc) && ok == Usable(old(View()), sound, qpc)
    {
      if !sound || qpc == 0 || qpc > CLOCK_MAX || (lastQpc != 0 && qpc < lastQpc) {
        invalid := true;
        return false;
      }
      lastQpc := qpc;
      return true;
    }

    method Close(qpc: nat)
      modifies this
      ensures View() == CloseOwn(old(View()), qpc)
    {
      if invalid { return; }
      if segmentStartQpc == 0 || qpc < segmentStartQpc || ticks > CLOCK_MAX {
        invalid := true;
        return;
      }
      var elapsed := qpc - segmentStartQpc;
      if elapsed > CLOCK_MAX - ticks {
        invalid := true;
        return;
      }
      ticks := ticks + elapsed;
    }

    method OpenOwn(sound: bool, qpc: nat) returns (good: bool)
      modifies this
      ensures View() == BeginOwn(old(View()), sound, qpc) && good == !invalid
    {
      var endpoint := TakeEndpoint(sound, qpc);
      segment := Own;
      segmentStartQpc := if endpoint then qpc else 0;
      return !invalid;
    }

    method ClaimTiming(sound: bool, qpc: nat) returns (claimed: bool)
      modifies this
      ensures View() == Apply(old(View()), Entry(Claim, sound, qpc)) && claimed == (old(phase) == NotEntered)
    {
      if phase != NotEntered { return false; }
      phase := InProgress;
      if ticks != 0 || lastQpc != 0 || segmentStartQpc != 0 || invalid || segment != NoSegment || filterParent != NoSegment {
        invalid := true;
      }
      var _ := OpenOwn(sound, qpc);
      return true;
    }

    method EnterNativeCode(sound: bool, qpc: nat) returns (good: bool)
      modifies this
      ensures View() == Apply(old(View()), Entry(EnterNative, sound, qpc))
      ensures good == (old(phase) == InProgress && !invalid)
    {
      if phase != InProgress { return false; }
      if segment != Own || filterParent != NoSegment {
        invalid := true;
        return false;
      }
      var _ := TakeEndpoint(sound, qpc);
      Close(qpc);
      segment, segmentStartQpc := Native, 0;
      return !invalid;
    }

    method LeaveNativeCode(sound: bool, qpc: nat) returns (good: bool)
      modifies this
      ensures View() == Apply(old(View()), Entry(LeaveNative, sound, qpc))
      ensures good == (old(phase) == InProgress && !invalid)
    {
      if phase != InProgress { return false; }
      if segment != Native || filterParent != NoSegment {
        invalid := true;
        return false;
      }
      good := OpenOwn(sound, qpc);
    }

    method BeginFilterCode(sound: bool, qpc: nat) returns (good: bool)
      modifies this
      ensures View() == Apply(old(View()), Entry(BeginFilter, sound, qpc))
      ensures good == (old(phase) == InProgress && !invalid)
    {
      if phase != InProgress { return false; }
      if (segment != Own && segment != Native) || filterParent != NoSegment {
        invalid := true;
        return false;
      }
      var endpoint := TakeEndpoint(sound, qpc);
      if segment == Own { Close(qpc); }
      filterParent := segment;
      segment := Filter;
      segmentStartQpc := if endpoint then qpc else 0;
      return !invalid;
    }

    method EndFilterCode(sound: bool, qpc: nat) returns (good: bool)
      modifies this
      ensures View() == Apply(old(View()), Entry(EndFilter, sound, qpc))
      ensures good == (old(phase) == InProgress && !invalid)
    {
      if phase != InProgress { return false; }
      if segment != Filter || (filterParent != Own && filterParent != Native) {
        invalid := true;
        return false;
      }
      var endpoint := TakeEndpoint(sound, qpc);
      Close(qpc);
      segment := filterParent;
      filterParent := NoSegment;
      segmentStartQpc := if segment == Own && endpoint then qpc else 0;
      return !invalid;
    }

    method BeginUnwindCode(sound: bool, qpc: nat) returns (good: bool)
      modifies this
      ensures View() == Apply(old(View()), Entry(BeginUnwind, sound, qpc))
      ensures good == (old(phase) == InProgress && !invalid)
    {
      if phase != InProgress { return false; }
      if (segment != Own && segment != Native) || filterParent != NoSegment {
        invalid := true;
        return false;
      }
      var _ := TakeEndpoint(sound, qpc);
      good := OpenOwn(sound, qpc);
    }

    method FinalizeTiming(sound: bool, qpc: nat) returns (good: bool)
      modifies this
      ensures View() == Apply(old(View()), Entry(Finalize, sound, qpc))
      ensures good == (old(phase) == InProgress && !invalid)
    {
      if phase != InProgress { return false; }
      var _ := TakeEndpoint(sound, qpc);
      if segment != Own || filterParent != NoSegment {
        invalid := true;
      } else {
        Close(qpc);
      }
      phase := if invalid then CompleteInvalid else CompleteValid;
      segment, filterParent, segmentStartQpc := NoSegment, NoSegment, 0;
      if invalid { ticks := 0; }
      return !invalid;
    }

    method InvalidateTiming()
      modifies this
      ensures View() == Apply(old(View()), Entry(Invalidate, true, 0))
    {
      if phase == InProgress { invalid := true; }
    }
  }
}
