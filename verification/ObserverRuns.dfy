/** What holds in every run of the observer protocol, whatever the interleaving. */
module ObserverRuns {
  import opened ObserverProtocol

  datatype Run = Run(states: seq<State>, steps: seq<Step>)

  ghost predicate IsRun(run: Run) {
    && |run.states| == |run.steps| + 1
    && run.states[0] == INITIAL
    && forall k :: 0 <= k < |run.steps| ==> run.states[k + 1] == Apply(run.states[k], run.steps[k])
  }

  lemma {:induction false} InvAlways(run: Run, k: nat)
    requires IsRun(run) && k < |run.states|
    ensures Inv(run.states[k])
  {
    hide Inv, Apply;
    if k == 0 {
      InitialOk();
    } else {
      InvAlways(run, k - 1);
      StepKeeps(run.states[k - 1], run.steps[k - 1]);
    }
  }

  lemma {:induction false} EvolvesBetween(run: Run, j: nat, k: nat)
    requires IsRun(run) && j <= k < |run.states|
    ensures Evolves(run.states[j], run.states[k])
  {
    hide Inv, Apply;
    if j < k {
      EvolvesBetween(run, j, k - 1);
      InvAlways(run, k - 1);
      StepKeeps(run.states[k - 1], run.steps[k - 1]);
      EvolvesTransitive(run.states[j], run.states[k - 1], run.states[k]);
    }
  }

  // ---- Admission ----

  /** If the gate is Armed at any moment of a run, no qualifying call is refused at any other. */
  lemma ArmedNeverRefuses(run: Run, a: nat, r: nat, i: nat)
    requires IsRun(run) && a < |run.states| && r < |run.states|
    requires run.states[a].gate == Armed
    requires i < |run.states[r].calls| && Qualifying(run.states[r].calls[i].kind)
    ensures !run.states[r].calls[i].pc.Refused?
  {
    InvAlways(run, r);
    assert CallOk(run.states[r], run.states[r].calls[i]);
    if r <= a { EvolvesBetween(run, r, a); } else { EvolvesBetween(run, a, r); }
  }

  lemma ArmedExcludesContaminated(run: Run, a: nat, c: nat)
    requires IsRun(run) && a < |run.states| && c < |run.states|
    requires run.states[a].gate == Armed
    ensures run.states[c].gate != Contaminated && run.states[c].gate != Disabled
  {
    if a <= c { EvolvesBetween(run, a, c); } else { EvolvesBetween(run, c, a); }
  }

  /** Admission is never granted before the commit: whoever is past it saw the gate Armed. */
  lemma AdmittedOnlyArmed(run: Run, k: nat, i: nat)
    requires IsRun(run) && k < |run.states| && i < |run.states[k].calls|
    requires PastAdmission(run.states[k].calls[i])
    ensures run.states[k].gate == Armed
  {
    InvAlways(run, k);
    assert CallOk(run.states[k], run.states[k].calls[i]);
  }

  // ---- The lifecycle word ----

  /** The word counts the owned entries and those in flight, and never underflows. */
  lemma WordCounts(run: Run, k: nat)
    requires IsRun(run) && k < |run.states|
    ensures var s := run.states[k];
            && Entries(s.lifecycle) == Count(s.calls, Owned)
            && Flying(s.lifecycle) == Count(s.calls, Active)
            && forall i :: 0 <= i < |s.calls| ==> !s.calls[i].pc.LeaveUnderflow?
  {
    InvAlways(run, k);
    var s := run.states[k];
    WordHalves(s);
    forall i | 0 <= i < |s.calls|
      ensures !s.calls[i].pc.LeaveUnderflow?
    {
      assert CallOk(s, s.calls[i]);
    }
  }

  lemma StillQuiet(run: Run, b: nat, k: nat, e: nat)
    requires IsRun(run) && b <= k <= e < |run.states|
    requires Clean(run.states[b].lifecycle, run.states[e].lifecycle) && !run.states[e].unknown
    ensures !NativeRunning(run.states[k])
  {
    EvolvesBetween(run, b, k);
    EvolvesBetween(run, k, e);
    InvAlways(run, k);
    var s := run.states[k];
    WordHalves(s);
    if i :| 0 <= i < |s.calls| && s.calls[i].pc.InNative? {
      assert CallOk(s, s.calls[i]);
      CountMember(s.calls, i, Active);
    }
  }

  /** Two equal clean reads of the word bracket a stretch in which no admitted Init or
      Shutdown, counted or overflowed, was running at any moment. */
  lemma CleanWindow(run: Run, b: nat, e: nat)
    requires IsRun(run) && b <= e < |run.states|
    requires Clean(run.states[b].lifecycle, run.states[e].lifecycle) && !run.states[e].unknown
    ensures forall k :: b <= k <= e ==> !NativeRunning(run.states[k])
  {
    forall k | b <= k <= e
      ensures !NativeRunning(run.states[k])
    {
      StillQuiet(run, b, k, e);
    }
  }

  // ---- Factory calls ----

  predicate HasBefore(pc: Pc) {
    || pc.InFactory? || pc.AfterRead? || pc.FirstUnknown? || pc.FirstLookup? || pc.TakeLock?
    || pc.LockedRead? || pc.LockedUnknown? || pc.LockedBind? || pc.ReturnedProxy?
  }

  predicate Checked(pc: Pc) { pc.LockedUnknown? || pc.LockedBind? || pc.ReturnedProxy? }

  predicate HasCall(run: Run, i: nat, k: nat) {
    k < |run.states| && i < |run.states[k].calls|
  }

  function PcAt(run: Run, i: nat, k: nat): Pc
    requires HasCall(run, i, k)
  {
    run.states[k].calls[i].pc
  }

  /** What one step of the run does to one call. */
  predicate CallMoves(s: State, step: Step, i: nat, after: Call)
    requires i < |s.calls|
  {
    var c := s.calls[i];
    if step.Advance? && step.call == i then after == c.(pc := NextPc(s, c, step.target, step.flag)) else after == c
  }

  lemma CallAfter(s: State, step: Step, i: nat)
    requires i < |s.calls|
    ensures i < |Apply(s, step).calls| && CallMoves(s, step, i, Apply(s, step).calls[i])
  {
  }

  /** One step backwards: the call existed, kept its kind, and either moved by its own step or not. */
  lemma PreviousPc(run: Run, i: nat, n: nat, k: nat)
    requires IsRun(run) && n < k && HasCall(run, i, n) && HasCall(run, i, k)
    ensures HasCall(run, i, k - 1) && k - 1 < |run.steps|
    ensures CallOk(run.states[k - 1], run.states[k - 1].calls[i])
    ensures CallMoves(run.states[k - 1], run.steps[k - 1], i, run.states[k].calls[i])
  {
    hide Inv, Apply;
    EvolvesBetween(run, n, k - 1);
    InvAlways(run, k - 1);
    CallAlwaysOk(run.states[k - 1], i);
    CallAfter(run.states[k - 1], run.steps[k - 1], i);
  }

  lemma BeforeStep(s: State, step: Step, i: nat, after: Call)
    requires i < |s.calls| && CallOk(s, s.calls[i]) && CallMoves(s, step, i, after)
    requires HasBefore(s.calls[i].pc) || s.calls[i].pc.ReturnedRaw?
    ensures after.pc.ReturnedRaw? || (HasBefore(after.pc) && HasBefore(s.calls[i].pc) && after.pc.before == s.calls[i].pc.before)
  {
  }

  lemma {:induction false} BeforeKept(run: Run, i: nat, n: nat, e: nat)
    requires IsRun(run) && n <= e && HasCall(run, i, n) && HasCall(run, i, e)
    requires HasBefore(PcAt(run, i, n))
    ensures PcAt(run, i, e).ReturnedRaw? || (HasBefore(PcAt(run, i, e)) && PcAt(run, i, e).before == PcAt(run, i, n).before)
  {
    hide IsRun, CallOk, CallMoves;
    if n < e {
      PreviousPc(run, i, n, e);
      BeforeKept(run, i, n, e - 1);
      BeforeStep(run.states[e - 1], run.steps[e - 1], i, run.states[e].calls[i]);
    }
  }

  lemma CheckStep(s: State, step: Step, i: nat, after: Call)
    requires i < |s.calls| && CallOk(s, s.calls[i]) && CallMoves(s, step, i, after)
    requires Checked(after.pc)
    ensures Checked(s.calls[i].pc) || (s.calls[i].pc.LockedRead? && after.pc.LockedUnknown?)
    ensures s.calls[i].pc.LockedRead? ==> Clean(s.calls[i].pc.before, s.lifecycle)
    ensures s.calls[i].pc.LockedUnknown? && !after.pc.LockedUnknown? ==> !s.unknown
  {
  }

  /** The moment of the word comparison made under the cache lock. */
  lemma {:induction false} LastCheck(run: Run, i: nat, n: nat, e: nat) returns (m: nat)
    requires IsRun(run) && n <= e && HasCall(run, i, n) && HasCall(run, i, e)
    requires PcAt(run, i, n).InFactory? && Checked(PcAt(run, i, e))
    ensures n <= m <= e
    ensures Clean(PcAt(run, i, n).before, run.states[m].lifecycle)
    ensures !PcAt(run, i, e).LockedUnknown? ==> !run.states[m].unknown
  {
    hide IsRun, CallOk, CallMoves;
    PreviousPc(run, i, n, e);
    BeforeKept(run, i, n, e - 1);
    CheckStep(run.states[e - 1], run.steps[e - 1], i, run.states[e].calls[i]);
    if PcAt(run, i, e - 1).LockedRead? {
      m := e - 1;
    } else {
      m := LastCheck(run, i, n, e - 1);
      EvolvesBetween(run, m, e - 1);
    }
  }

  /** A call that the state does not yet have begins at its first program point. */
  lemma NewCall(run: Run, i: nat, k: nat)
    requires IsRun(run) && HasCall(run, i, k) && (k == 0 || !HasCall(run, i, k - 1))
    ensures run.states[k].calls[i].pc == StartPc(run.states[k].calls[i].kind)
  {
    if k > 0 {
      hide Inv;
      EvolvesBetween(run, k - 1, k);
    }
  }

  lemma NeverStartsInside(kind: Kind)
    ensures !HasBefore(StartPc(kind)) && !StartPc(kind).LookupScan? && !Scanned(StartPc(kind))
  {
  }

  /** The sample before the native call, one step back. */
  lemma SampleStep(s: State, step: Step, i: nat, after: Call)
    requires i < |s.calls| && CallOk(s, s.calls[i]) && CallMoves(s, step, i, after) && HasBefore(after.pc)
    ensures (HasBefore(s.calls[i].pc) && s.calls[i].pc.before == after.pc.before)
         || (after.pc == InFactory(s.lifecycle) && Apply(s, step).lifecycle == s.lifecycle)
  {
  }

  /** Every factory call past its sample has taken it, at a moment when it was the word. */
  lemma {:induction false} SampleMoment(run: Run, i: nat, e: nat) returns (b: nat)
    requires IsRun(run) && HasCall(run, i, e) && HasBefore(PcAt(run, i, e))
    ensures b <= e && HasCall(run, i, b) && PcAt(run, i, b) == InFactory(run.states[b].lifecycle)
    ensures PcAt(run, i, e).before == run.states[b].lifecycle
  {
    hide CallOk, CallMoves, Apply;
    NeverStartsInside(run.states[e].calls[i].kind);
    if e == 0 || !HasCall(run, i, e - 1) {
      NewCall(run, i, e);
    } else {
      PreviousPc(run, i, e - 1, e);
      SampleStep(run.states[e - 1], run.steps[e - 1], i, run.states[e].calls[i]);
      if HasBefore(PcAt(run, i, e - 1)) && PcAt(run, i, e - 1).before == PcAt(run, i, e).before {
        b := SampleMoment(run, i, e - 1);
      } else {
        b := e;
      }
    }
  }

  /** A factory call that returned a proxy crossed no admitted Init or Shutdown: none was running
      at any moment at which it was in the native factory, nor between its sample of the word and
      the check under the cache lock. */
  lemma ProxyMeansNoCrossing(run: Run, i: nat, e: nat) returns (b: nat, m: nat)
    requires IsRun(run) && HasCall(run, i, e) && PcAt(run, i, e).ReturnedProxy?
    ensures b <= m <= e && HasCall(run, i, b)
    ensures PcAt(run, i, b) == InFactory(run.states[b].lifecycle)
    ensures PcAt(run, i, e).before == run.states[b].lifecycle
    ensures forall k :: b <= k <= m ==> !NativeRunning(run.states[k])
    ensures forall n: nat :: n <= e && HasCall(run, i, n) && PcAt(run, i, n).InFactory? ==> !NativeRunning(run.states[n])
  {
    b := SampleMoment(run, i, e);
    m := LastCheck(run, i, b, e);
    CleanWindow(run, b, m);
    forall n: nat | n <= e && HasCall(run, i, n) && PcAt(run, i, n).InFactory?
      ensures !NativeRunning(run.states[n])
    {
      var sampled := SampleMoment(run, i, n);
      var checked := LastCheck(run, i, n, e);
      CleanWindow(run, sampled, checked);
    }
  }

  // ---- The binding cache ----

  /** In every reachable state: at most sixteen entries, one per key, numbered as created. */
  lemma CacheAlwaysOk(run: Run, k: nat)
    requires IsRun(run) && k < |run.states|
    ensures CacheOk(run.states[k].bindings)
  {
    InvAlways(run, k);
  }

  /** An entry, with its accept decision, is for ever what it was when it was made. */
  lemma DecisionsAreSticky(run: Run, j: nat, k: nat, n: nat)
    requires IsRun(run) && j <= k < |run.states| && n < |run.states[j].bindings|
    ensures n < |run.states[k].bindings| && run.states[k].bindings[n] == run.states[j].bindings[n]
  {
    EvolvesBetween(run, j, k);
  }

  /** Factory calls that return proxies for the same object, user and sequence return the same one. */
  lemma SameKeySameProxy(run: Run, i: nat, d: nat, j: nat, e: nat)
    requires IsRun(run) && HasCall(run, i, d) && HasCall(run, j, e)
    requires PcAt(run, i, d).ReturnedProxy? && PcAt(run, j, e).ReturnedProxy?
    requires PcAt(run, i, d).target == PcAt(run, j, e).target
    requires run.states[d].calls[i].kind == run.states[e].calls[j].kind
    requires Entries(PcAt(run, i, d).before) == Entries(PcAt(run, j, e).before)
    ensures PcAt(run, i, d).id == PcAt(run, j, e).id
  {
    InvAlways(run, d);
    InvAlways(run, e);
    assert CallOk(run.states[d], run.states[d].calls[i]);
    assert CallOk(run.states[e], run.states[e].calls[j]);
    if d <= e { EvolvesBetween(run, d, e); } else { EvolvesBetween(run, e, d); }
  }

  lemma LockIsExclusive(run: Run, k: nat, i: nat, j: nat)
    requires IsRun(run) && HasCall(run, i, k) && HasCall(run, j, k)
    requires InLock(PcAt(run, i, k)) && InLock(PcAt(run, j, k))
    ensures i == j
  {
    InvAlways(run, k);
  }

  // ---- The accepted-binding lookup ----

  predicate Scanned(pc: Pc) {
    pc.RecheckGate? || pc.RecheckWord? || pc.RecheckUnknown? || pc.LookupAccepted?
  }

  lemma LookupStepBack(s: State, step: Step, i: nat, after: Call)
    requires i < |s.calls| && CallOk(s, s.calls[i]) && CallMoves(s, step, i, after)
    ensures s.calls[i].pc.LookupScan? ==>
              after.pc == s.calls[i].pc || Scanned(after.pc) || after.pc.LookupFailed?
    ensures Scanned(s.calls[i].pc) || s.calls[i].pc.LookupFailed? ==> Scanned(after.pc) || after.pc.LookupFailed?
    ensures Scanned(after.pc) ==>
              (s.calls[i].pc.LookupScan? || Scanned(s.calls[i].pc))
              && s.calls[i].pc.before == after.pc.before
    ensures Scanned(after.pc) && Scanned(s.calls[i].pc) ==> s.calls[i].pc.id == after.pc.id
    ensures Scanned(after.pc) && s.calls[i].pc.LookupScan? ==>
              && s.calls[i].kind.LookupCall? && after.pc.RecheckGate?
              && UniqueMatch(s.bindings, s.calls[i].kind.wanted, Entries(after.pc.before), after.pc.id)
    ensures after.pc.RecheckUnknown? ==>
              s.calls[i].pc.RecheckUnknown? || (s.calls[i].pc.RecheckWord? && s.lifecycle == after.pc.before)
    ensures after.pc.LookupAccepted? ==>
              s.calls[i].pc.LookupAccepted? || (s.calls[i].pc.RecheckUnknown? && !s.unknown)
  {
  }

  /** A lookup that has scanned never scans again, and its first read stays what it was. */
  lemma {:induction false} ScanKept(run: Run, i: nat, b: nat, e: nat)
    requires IsRun(run) && b <= e && HasCall(run, i, b) && HasCall(run, i, e)
    requires PcAt(run, i, b).LookupScan?
    ensures PcAt(run, i, e) == PcAt(run, i, b) || Scanned(PcAt(run, i, e)) || PcAt(run, i, e).LookupFailed?
  {
    hide IsRun, CallOk, CallMoves;
    if b < e {
      PreviousPc(run, i, b, e);
      ScanKept(run, i, b, e - 1);
      LookupStepBack(run.states[e - 1], run.steps[e - 1], i, run.states[e].calls[i]);
    }
  }

  /** The moment of the scan. */
  lemma {:induction false} ScanMoment(run: Run, i: nat, b: nat, e: nat) returns (q: nat)
    requires IsRun(run) && b <= e && HasCall(run, i, b) && HasCall(run, i, e)
    requires PcAt(run, i, b).LookupScan? && Scanned(PcAt(run, i, e))
    ensures b <= q < e && HasCall(run, i, q) && PcAt(run, i, q) == PcAt(run, i, b)
    ensures run.states[q].calls[i].kind.LookupCall?
    ensures PcAt(run, i, e).before == PcAt(run, i, b).before
    ensures UniqueMatch(run.states[q].bindings, run.states[q].calls[i].kind.wanted,
                        Entries(PcAt(run, i, b).before), PcAt(run, i, e).id)
  {
    hide IsRun, CallOk, CallMoves, UniqueMatch;
    PreviousPc(run, i, b, e);
    ScanKept(run, i, b, e - 1);
    LookupStepBack(run.states[e - 1], run.steps[e - 1], i, run.states[e].calls[i]);
    if PcAt(run, i, e - 1).LookupScan? {
      q := e - 1;
    } else {
      q := ScanMoment(run, i, b, e - 1);
    }
  }

  /** The moment of the final word comparison. */
  lemma {:induction false} RecheckMoment(run: Run, i: nat, q: nat, e: nat) returns (m: nat)
    requires IsRun(run) && q <= e && HasCall(run, i, q) && HasCall(run, i, e)
    requires PcAt(run, i, q).LookupScan?
    requires PcAt(run, i, e).RecheckUnknown? || PcAt(run, i, e).LookupAccepted?
    ensures q <= m <= e
    ensures run.states[m].lifecycle == PcAt(run, i, e).before
    ensures PcAt(run, i, e).LookupAccepted? ==> !run.states[m].unknown
  {
    hide IsRun, CallOk, CallMoves, UniqueMatch;
    PreviousPc(run, i, q, e);
    LookupStepBack(run.states[e - 1], run.steps[e - 1], i, run.states[e].calls[i]);
    if PcAt(run, i, e - 1).RecheckWord? {
      m := e - 1;
    } else {
      m := RecheckMoment(run, i, q, e - 1);
      EvolvesBetween(run, m, e - 1);
    }
  }

  lemma LookupSampleStep(s: State, step: Step, i: nat, after: Call)
    requires i < |s.calls| && CallOk(s, s.calls[i]) && CallMoves(s, step, i, after)
    requires after.pc.LookupScan? || Scanned(after.pc)
    ensures ((s.calls[i].pc.LookupScan? || Scanned(s.calls[i].pc)) && s.calls[i].pc.before == after.pc.before)
         || (after.pc == LookupScan(s.lifecycle) && Flying(s.lifecycle) == 0 && Apply(s, step).lifecycle == s.lifecycle)
  {
  }

  /** Every lookup that scans has taken its sample, at a moment when it was the word and nothing
      was in flight. */
  lemma {:induction false} LookupSampleMoment(run: Run, i: nat, e: nat) returns (b: nat)
    requires IsRun(run) && HasCall(run, i, e) && (PcAt(run, i, e).LookupScan? || Scanned(PcAt(run, i, e)))
    ensures b <= e && HasCall(run, i, b) && PcAt(run, i, b) == LookupScan(run.states[b].lifecycle)
    ensures PcAt(run, i, e).before == run.states[b].lifecycle && Flying(run.states[b].lifecycle) == 0
  {
    hide CallOk, CallMoves, Apply, Flying;
    NeverStartsInside(run.states[e].calls[i].kind);
    if e == 0 || !HasCall(run, i, e - 1) {
      NewCall(run, i, e);
    } else {
      PreviousPc(run, i, e - 1, e);
      LookupSampleStep(run.states[e - 1], run.steps[e - 1], i, run.states[e].calls[i]);
      var was := PcAt(run, i, e - 1);
      if (was.LookupScan? || Scanned(was)) && was.before == PcAt(run, i, e).before {
        b := LookupSampleMoment(run, i, e - 1);
      } else {
        b := e;
      }
    }
  }

  /** A successful lookup names the one accepted entry of the current sequence at the moment q of
      its scan, and no admitted Init or Shutdown ran from its sample b of the word, over the scan,
      to its last comparison m. */
  lemma LookupIsCoherent(run: Run, i: nat, e: nat) returns (b: nat, q: nat, m: nat)
    requires IsRun(run) && HasCall(run, i, e) && PcAt(run, i, e).LookupAccepted?
    ensures b <= q <= m <= e && q < e && HasCall(run, i, b) && HasCall(run, i, q)
    ensures PcAt(run, i, b) == LookupScan(run.states[b].lifecycle)
    ensures PcAt(run, i, e).before == run.states[b].lifecycle == run.states[m].lifecycle
    ensures run.states[q].calls[i].kind.LookupCall?
    ensures UniqueMatch(run.states[q].bindings, run.states[q].calls[i].kind.wanted,
                        Entries(run.states[b].lifecycle), PcAt(run, i, e).id)
    ensures forall k :: b <= k <= m ==> !NativeRunning(run.states[k])
  {
    b := LookupSampleMoment(run, i, e);
    q := ScanMoment(run, i, b, e);
    m := RecheckMoment(run, i, q, e);
    CleanWindow(run, b, m);
  }
}
