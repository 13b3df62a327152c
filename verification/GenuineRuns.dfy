/** Whole runs of the publication protocol: any number of acquirers, any interleaving, any
    answers of the native side.
 */
module GenuineRuns {
  import opened GenuinePublication

  datatype Run = Run(states: seq<State>, steps: seq<Step>)

  predicate IsRun(run: Run) {
    && |run.states| == |run.steps| + 1
    && run.states[0].bootstrap != 0
    && run.states[0] == Initial(run.states[0].bootstrap)
    && forall k :: 0 <= k < |run.steps| ==> run.states[k + 1] == Apply(run.states[k], run.steps[k])
  }

  lemma {:induction false} InvAlways(run: Run, k: nat)
    requires IsRun(run) && k < |run.states|
    ensures Inv(run.states[k])
  {
    hide Inv, Apply;
    if k == 0 {
      InitialOk(run.states[0].bootstrap);
    } else {
      InvAlways(run, k - 1);
      StepKeeps(run.states[k - 1], run.steps[k - 1]);
    }
  }

  lemma {:induction false} EvolvesBetween(run: Run, j: nat, k: nat)
    requires IsRun(run) && j <= k < |run.states|
    ensures Evolves(run.states[j], run.states[k])
  {
    hide Inv, Apply;
    if j < k {
      EvolvesBetween(run, j, k - 1);
      InvAlways(run, k - 1);
      StepKeeps(run.states[k - 1], run.steps[k - 1]);
      EvolvesTransitive(run.states[j], run.states[k - 1], run.states[k]);
    }
  }

  // ---- Conservation ----

  /** Every load is accounted for in every reachable state. */
  lemma LoadsConserved(run: Run, k: nat, m: nat)
    requires IsRun(run) && k < |run.states| && m != 0
    ensures run.states[k].loads[m]
         == Accounted(run.states[k], m, Total(run.states[k].calls, OfModule(m)))
  {
    InvAlways(run, k);
    assert ModuleBalances(run.states[k], m);
  }

  /** When every acquirer has returned and every private lease was closed, what is still loaded
      is exactly what the published records retain and the bootstrap's own handles. */
  lemma NothingLeaks(run: Run, k: nat, m: nat)
    requires IsRun(run) && k < |run.states| && m != 0
    requires forall i :: 0 <= i < |run.states[k].calls| ==> OwnOf(run.states[k].calls[i]) == 0
    ensures run.states[k].loads[m] == Accounted(run.states[k], m, 0)
  {
    LoadsConserved(run, k, m);
    NobodyOwns(run.states[k].calls, m);
  }

  lemma {:induction false} NobodyOwns(calls: seq<Pc>, m: nat)
    requires forall i :: 0 <= i < |calls| ==> OwnOf(calls[i]) == 0
    ensures Total(calls, OfModule(m)) == 0
  {
    if calls != [] {
      NobodyOwns(calls[1..], m);
    }
  }

  /** The bootstrap itself is never released. */
  lemma BootstrapNeverFreed(run: Run, k: nat)
    requires IsRun(run) && k < |run.states|
    ensures run.states[k].frees[run.states[0].bootstrap] == 0
    decreases k
  {
    EvolvesBetween(run, 0, k);
    if k > 0 {
      BootstrapNeverFreed(run, k - 1);
      EvolvesBetween(run, 0, k - 1);
      InvAlways(run, k - 1);
      FreesOnlyOwn(run.states[k - 1], run.steps[k - 1]);
    }
  }

  lemma FreesOnlyOwn(s: State, step: Step)
    requires Inv(s)
    ensures Apply(s, step).frees[s.bootstrap] == s.frees[s.bootstrap]
  {
    if step.Advance? && step.call < |s.calls| {
      assert CallOk(s, s.calls[step.call]);
    }
  }

  // ---- Published dispatches ----

  predicate HasCall(run: Run, i: nat, k: nat) {
    k < |run.states| && i < |run.states[k].calls|
  }

  /** A module behind a persistent lease stays loaded for the rest of the run. */
  lemma PersistentStaysLoaded(run: Run, i: nat, j: nat, k: nat)
    requires IsRun(run) && HasCall(run, i, j) && j <= k < |run.states|
    requires run.states[j].calls[i].Persistent?
    ensures Retained(run.states[k], run.states[j].calls[i].lease)
    ensures run.states[k].loads[run.states[j].calls[i].lease] > run.states[k].frees[run.states[j].calls[i].lease]
  {
    InvAlways(run, j);
    InvAlways(run, k);
    EvolvesBetween(run, j, k);
    var m := run.states[j].calls[i].lease;
    assert CallOk(run.states[j], run.states[j].calls[i]);
    LoadsConserved(run, k, m);
  }

  /** While a private lease is open its module is loaded. */
  lemma PrivateIsLoaded(run: Run, i: nat, k: nat)
    requires IsRun(run) && HasCall(run, i, k)
    requires run.states[k].calls[i].Private?
    ensures run.states[k].loads[run.states[k].calls[i].own] > run.states[k].frees[run.states[k].calls[i].own]
  {
    InvAlways(run, k);
    var s := run.states[k];
    assert CallOk(s, s.calls[i]);
    LoadsConserved(run, k, s.calls[i].own);
    TotalMember(s.calls, i, OfModule(s.calls[i].own));
  }

  /** A record is never freed once published, nor while it can still be. */
  lemma PublishedNeverFreed(run: Run, j: nat, k: nat)
    requires IsRun(run) && j <= k < |run.states|
    requires run.states[j].once.CompleteRecord?
    ensures run.states[k].once == run.states[j].once
    ensures run.states[k].dropped[run.states[j].once.record] == 0
    ensures run.states[j].once.record < |run.states[j].records|
    ensures run.states[j].records <= run.states[k].records
  {
    InvAlways(run, j);
    InvAlways(run, k);
    EvolvesBetween(run, j, k);
    assert RecordBalances(run.states[k], run.states[j].once.record);
  }

  /** A held record is unpublished and unfreed, and no second call holds it. */
  lemma RecordHasOneHolder(run: Run, k: nat, i: nat, j: nat)
    requires IsRun(run) && HasCall(run, i, k) && HasCall(run, j, k) && i < j
    requires RecordOf(run.states[k].calls[i]).Some?
    ensures RecordOf(run.states[k].calls[i]) != RecordOf(run.states[k].calls[j])
    ensures run.states[k].once != CompleteRecord(RecordOf(run.states[k].calls[i]).value)
    ensures run.states[k].dropped[RecordOf(run.states[k].calls[i]).value] == 0
  {
    InvAlways(run, k);
    var s := run.states[k];
    var r := RecordOf(s.calls[i]).value;
    assert RecordBalances(s, r);
    TotalTwo(s.calls, i, j, OfRecord(r));
  }

  /** The fallback is read only once it is Ready, and what it then holds is never rewritten. */
  lemma FallbackReadOnlyWhenReady(run: Run, i: nat, j: nat, k: nat)
    requires IsRun(run) && HasCall(run, i, j) && j <= k < |run.states|
    requires run.states[j].calls[i].ReadFallback? || run.states[j].calls[i] == ReadBegun(FallbackRef)
          || (run.states[j].calls[i].ReadNormal? && run.states[j].calls[i].ref.FallbackRef?)
    ensures run.states[j].fallbackState == Ready == run.states[k].fallbackState
    ensures run.states[k].fallback == run.states[j].fallback != 0
  {
    InvAlways(run, j);
    EvolvesBetween(run, j, k);
    assert CallOk(run.states[j], run.states[j].calls[i]);
  }

  /** At one moment at most one call may write the fallback, and only while nobody may read it. */
  lemma FallbackHasOneWriter(run: Run, k: nat, i: nat, j: nat)
    requires IsRun(run) && HasCall(run, i, k) && HasCall(run, j, k)
    requires run.states[k].calls[i].WriteFallback? || run.states[k].calls[i].ReadyFallback?
    requires run.states[k].calls[j].WriteFallback? || run.states[k].calls[j].ReadyFallback?
    ensures i == j && run.states[k].fallbackState == Writing
  {
    InvAlways(run, k);
    var s := run.states[k];
    assert CallOk(s, s.calls[i]);
    if i != j {
      TotalTwo(s.calls, if i < j then i else j, if i < j then j else i, OfWriter);
    }
  }

  /** Call i fills in the fallback in the step after moment k. */
  predicate Writes(run: Run, i: nat, k: nat) {
    && k < |run.steps| && HasCall(run, i, k)
    && run.steps[k].Advance? && run.steps[k].call == i && run.states[k].calls[i].WriteFallback?
  }

  /** A call between its write and its release of the fallback, or the fallback released. */
  predicate PastWrite(s: State, i: nat)
    requires i < |s.calls|
  {
    (s.calls[i].ReadyFallback? && s.fallbackState == Writing) || s.fallbackState == Ready
  }

  lemma WriteStep(s: State, step: Step, i: nat)
    requires i < |s.calls| && CallOk(s, s.calls[i])
    requires PastWrite(s, i) || (s.calls[i].WriteFallback? && step.Advance? && step.call == i)
    requires s.fallbackState == Ready || forall j :: 0 <= j < |s.calls| && s.calls[j].ReadyFallback? ==> j == i
    ensures i < |Apply(s, step).calls| && PastWrite(Apply(s, step), i)
  {
  }

  lemma {:induction false} AfterWrite(run: Run, i: nat, j: nat, k: nat)
    requires IsRun(run) && Writes(run, i, j) && j < k < |run.states|
    ensures HasCall(run, i, k) && PastWrite(run.states[k], i)
  {
    hide Apply, CallOk, Inv;
    if j + 1 < k { AfterWrite(run, i, j, k - 1); }
    var s := run.states[k - 1];
    Stays(run, i, j, k - 1);
    if s.fallbackState != Ready {
      forall n | 0 <= n < |s.calls| && s.calls[n].ReadyFallback?
        ensures n == i
      {
        FallbackHasOneWriter(run, k - 1, n, i);
      }
    }
    WriteStep(s, run.steps[k - 1], i);
  }

  /** The fallback is written at most once in a run, whoever writes it. */
  lemma WrittenOnce(run: Run, i: nat, j: nat, i2: nat, k: nat)
    requires IsRun(run) && Writes(run, i, j) && Writes(run, i2, k)
    ensures i == i2 && j == k
  {
    if j < k {
      NoSecondWrite(run, i, j, i2, k);
    } else if k < j {
      NoSecondWrite(run, i2, k, i, j);
    }
  }

  lemma NoSecondWrite(run: Run, i: nat, j: nat, i2: nat, k: nat)
    requires IsRun(run) && Writes(run, i, j) && j < k < |run.states| && HasCall(run, i2, k)
    ensures !run.states[k].calls[i2].WriteFallback?
  {
    AfterWrite(run, i, j, k);
    if run.states[k].calls[i2].WriteFallback? {
      FallbackHasOneWriter(run, k, i2, i2);
      FallbackHasOneWriter(run, k, i, i2);
    }
  }

  // ---- Progress ----

  function Base(site: Site): nat {
    match site
    case Start => 35
    case Retry(_) => 23
    case AfterFailure(_, attempt, _) => if attempt == 0 then 27 else 17
    case Publishing(_, _) => 15
    case Rejected(_, _) => 9
    case Republishing(_) => 4
    case Losing(_) => 1
  }

  /** How many of its own steps a call can still take. */
  function Rank(pc: Pc): nat {
    match pc
    case CheckNormal(site) => Base(site) + 4
    case ReadNormal(site, _) => Base(site) + 3
    case CheckFallback(site) => Base(site) + 2
    case ReadFallback(site) => Base(site) + 1
    case BeginOnce => 35
    case ReadBegun(_) => 34
    case Resolve(_, attempt) => if attempt == 0 then 33 else 23
    case Reject(_, attempt, _, _) => if attempt == 0 then 32 else 22
    case Allocate(_) => 15
    case Complete(_, _) => 14
    case DropRecord(_, _, _) => 9
    case FreeOwn(_, _) => 1
    case ClaimFallback(_) => 4
    case WriteFallback(_) => 3
    case ReadyFallback(_) => 2
    case FinishFallback(_) => 1
    case _ => 0
  }

  predicate Finished(pc: Pc) { pc.Persistent? || pc.Private? || pc.Failed? || pc.Released? }

  lemma RankFalls(s: State, pc: Pc, c: Choice)
    requires CallOk(s, pc) && !Finished(pc)
    ensures Rank(NextPc(s, pc, c)) < Rank(pc) <= 39
  {
  }

  predicate Moves(step: Step, i: nat) { step.Advance? && step.call == i }

  /** Only its own steps move a call. */
  lemma OnlyOwnStepMoves(s: State, step: Step, i: nat)
    requires i < |s.calls|
    ensures i < |Apply(s, step).calls|
    ensures Apply(s, step).calls[i] == if Moves(step, i) then NextPc(s, s.calls[i], step.choice) else s.calls[i]
  {
    hide NextPc;
  }

  lemma FinishedStays(s: State, pc: Pc, c: Choice)
    ensures Finished(pc) ==> Rank(NextPc(s, pc, c)) == Rank(pc) == 0
  {
  }

  lemma StepRank(s: State, step: Step, i: nat)
    requires i < |s.calls| && CallOk(s, s.calls[i])
    ensures i < |Apply(s, step).calls|
    ensures Rank(Apply(s, step).calls[i]) + (if Moves(step, i) && !Finished(s.calls[i]) then 1 else 0) <= Rank(s.calls[i])
  {
    hide CallOk, Apply, NextPc, Rank, Finished;
    OnlyOwnStepMoves(s, step, i);
    if Moves(step, i) {
      FinishedStays(s, s.calls[i], step.choice);
      if !Finished(s.calls[i]) { RankFalls(s, s.calls[i], step.choice); }
    }
  }

  /** The steps that call i takes between two moments before it has finished. */
  function OwnSteps(run: Run, i: nat, j: nat, k: nat): nat
    requires IsRun(run) && HasCall(run, i, j) && j <= k < |run.states|
  {
    if j == k then 0
    else
      Stays(run, i, j, k - 1);
      OwnSteps(run, i, j, k - 1)
      + if Moves(run.steps[k - 1], i) && !Finished(run.states[k - 1].calls[i]) then 1 else 0
  }

  lemma Stays(run: Run, i: nat, j: nat, k: nat)
    requires IsRun(run) && HasCall(run, i, j) && j <= k < |run.states|
    ensures HasCall(run, i, k) && CallOk(run.states[k], run.states[k].calls[i])
  {
    EvolvesBetween(run, j, k);
    InvAlways(run, k);
  }

  /** Wait-free: whatever the other acquirers do, a call finishes within 39 steps of its own. */
  lemma {:induction false} FinishesAlone(run: Run, i: nat, j: nat, k: nat)
    requires IsRun(run) && HasCall(run, i, j) && j <= k < |run.states|
    ensures HasCall(run, i, k)
    ensures OwnSteps(run, i, j, k) + Rank(run.states[k].calls[i]) <= Rank(run.states[j].calls[i]) <= 39
  {
    hide Apply, CallOk, Rank, Finished, Moves;
    Stays(run, i, j, k);
    RankBound(run.states[j], run.states[j].calls[i]);
    if j < k {
      FinishesAlone(run, i, j, k - 1);
      Stays(run, i, j, k - 1);
      StepRank(run.states[k - 1], run.steps[k - 1], i);
    }
  }

  lemma RankBound(s: State, pc: Pc)
    ensures Rank(pc) <= 39
  {
  }

  /** How many loads the call can still ask for. */
  function TriesLeft(pc: Pc): nat {
    match pc
    case Resolve(_, attempt) => if attempt == 0 then 2 else 1
    case Reject(_, attempt, _, retryable) => if attempt == 0 && retryable then 1 else 0
    case BeginOnce => 2
    case ReadBegun(_) => 2
    case CheckNormal(site) => SiteTries(site)
    case ReadNormal(site, _) => SiteTries(site)
    case CheckFallback(site) => SiteTries(site)
    case ReadFallback(site) => SiteTries(site)
    case _ => 0
  }

  function SiteTries(site: Site): nat {
    match site
    case Start => 2
    case Retry(_) => 1
    case AfterFailure(_, attempt, retryable) => if attempt == 0 && retryable then 1 else 0
    case _ => 0
  }

  lemma TryUsed(s: State, pc: Pc, c: Choice)
    requires CallOk(s, pc)
    ensures TriesLeft(NextPc(s, pc, c)) + (if pc.Resolve? then 1 else 0) <= TriesLeft(pc)
  {
  }

  lemma StepTries(s: State, step: Step, i: nat)
    requires i < |s.calls| && CallOk(s, s.calls[i])
    ensures i < |Apply(s, step).calls|
    ensures TriesLeft(Apply(s, step).calls[i]) + (if Moves(step, i) && s.calls[i].Resolve? then 1 else 0)
         <= TriesLeft(s.calls[i])
  {
    hide CallOk, Apply, NextPc, TriesLeft;
    OnlyOwnStepMoves(s, step, i);
    if Moves(step, i) { TryUsed(s, s.calls[i], step.choice); }
  }

  lemma TriesBound(pc: Pc)
    ensures TriesLeft(pc) <= 2
  {
  }

  /** The resolutions call i starts between two moments. */
  function Tries(run: Run, i: nat, j: nat, k: nat): nat
    requires IsRun(run) && HasCall(run, i, j) && j <= k < |run.states|
  {
    if j == k then 0
    else
      Stays(run, i, j, k - 1);
      Tries(run, i, j, k - 1) + if Moves(run.steps[k - 1], i) && run.states[k - 1].calls[i].Resolve? then 1 else 0
  }

  /** At most two resolutions; after a failure at most one more, and only if it is retryable. */
  lemma {:induction false} RetriesOnce(run: Run, i: nat, j: nat, k: nat)
    requires IsRun(run) && HasCall(run, i, j) && j <= k < |run.states|
    ensures HasCall(run, i, k)
    ensures Tries(run, i, j, k) + TriesLeft(run.states[k].calls[i]) <= TriesLeft(run.states[j].calls[i]) <= 2
  {
    TriesBound(run.states[j].calls[i]);
    hide Apply, CallOk, TriesLeft, Moves;
    Stays(run, i, j, k);
    if j < k {
      RetriesOnce(run, i, j, k - 1);
      Stays(run, i, j, k - 1);
      StepTries(run.states[k - 1], run.steps[k - 1], i);
    }
  }
}
