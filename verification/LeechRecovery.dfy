/** The recovery attempt of one process: control latch, owner visits, native callbacks, and native
    calls that may throw, may call back, and may find the world changed.

    Between any two accesses of the shared control the pipe worker and the console may act. A
    calm world is one where nobody else acts, every check passes and every native call does
    what it should; contracts use it to say what the code does when nothing is wrong.
 */
module LeechRecovery {
  import opened LeechFault
  import opened LeechTrace

  datatype Origin = NoOrigin | Pipe | Console

  /** What the pipe worker and the console share with the owner. */
  datatype Control = Control(latched: Origin, stopped: bool, ready: bool, consoleAvailable: bool)

  predicate ControlEvolves(was: Control, now: Control) {
    && (was.latched != NoOrigin ==> now.latched == was.latched)
    && (was.stopped ==> now.stopped)
    && (!was.ready ==> !now.ready)
  }

  predicate InRecipe(phase: Phase) {
    phase == Phase.FinishSubmitted || phase == Phase.FinishAccepted || phase == Phase.Recreating || phase == Phase.Published
  }

  const PENDING_CAPACITY: nat := 9
  const TYPE_LIMIT: nat := 256
  const ATTEMPT_SECONDS: nat := 120
  const FINISH_SECONDS: nat := 60
  const METADATA_SECONDS: nat := 65
  const TWO_64: nat := 0x1_0000_0000_0000_0000
  const SEQUENCE_MAX: nat := 0xFFFF_FFFF_FFFF_FFFF
  const CLOCK_MAX: nat := 0x7FFF_FFFF_FFFF_FFFF

  /** How a part of a recipe ended. */
  datatype Verdict = Go | Refuse(reason: Reason, restart: bool) | Left | Threw

  class Recovery {
    const schema: nat
    const enabled: bool
    const identityOk: bool
    const consoleWanted: bool
    const calm: bool
    const clock: nat             // what a calm clock answers
    const frequency: nat
    var control: Control
    var foreignFault: bool       // a callback arrived on a foreign thread
    ghost var claims: nat
    ghost var releases: nat
    ghost var started: nat

    var diagnosis: Diagnosis
    var phase: Phase
    var transitionSequence: nat
    var operationSequence: nat
    var qpc: nat
    var finishDeadline: nat
    var overallDeadline: nat
    var metadataDeadline: nat
    var published: bool
    var exceptionObserved: bool
    var coherent: bool
    var recipeCompleted: bool
    var staged: bool     // a native stage was entered
    var terminal: bool
    var finalPending: bool
    var requested: bool
    var exceptionPending: bool
    var pendingCount: nat
    var bindingSuspended: bool

    var resource: Resource
    var callbackId: nat
    var recipeEntered: bool
    var cancelEntered: bool
    var bindEntered: bool
    var bindCompleted: bool
    var resourceReleaseAttempted: bool
    var holder: nat
    var finishSlot: nat
    var finishKind: nat
    var finishObserved: bool
    var finishTrue: bool
    var enqueueReturned: bool
    var finishId: nat
    var createInstalled: bool
    var createId: nat
    var createForwarded: bool
    var createReturned: bool
    var callbackDepth: nat

    ghost var trace: seq<Event>
    ghost var account: seq<Event>   // of the local Finish slot
    ghost var seenAt: nat
    ghost var enqueuedAt: nat
    ghost var ack: Witness

    constructor (schema: nat, enabled: bool, identityOk: bool, consoleWanted: bool,
                 calm: bool, clock: nat, frequency: nat)
      ensures Valid() && !requested && !terminal && !recipeEntered && trace == []
      ensures control.latched == NoOrigin && claims == started == 0 && phase == Phase.Armed
    {
      this.schema, this.enabled, this.identityOk := schema, enabled, identityOk;
      this.consoleWanted, this.calm, this.clock, this.frequency := consoleWanted, calm, clock, frequency;
      control := Control(NoOrigin, false, true, false);
      foreignFault, claims, releases, started := false, 0, 0, 0;
      diagnosis, phase, transitionSequence, operationSequence := NO_DIAGNOSIS, Phase.Armed, 1, 0;
      qpc, finishDeadline, overallDeadline, metadataDeadline := 0, 0, 0, 0;
      published, exceptionObserved, coherent, recipeCompleted, staged := false, false, false, false, false;
      terminal, finalPending, requested, exceptionPending := false, false, false, false;
      pendingCount, bindingSuspended := 0, false;
      recipeEntered, cancelEntered, bindEntered, bindCompleted := false, false, false, false;
      resource, callbackId := NoResource, 0;
      resourceReleaseAttempted, holder, finishSlot, finishKind := false, 0, 0, 0;
      finishObserved, finishTrue, enqueueReturned, finishId := false, false, false, 0;
      createInstalled, createId, createForwarded, createReturned, callbackDepth := false, 0, false, false, 0;
      trace, account := [], [];
    }

    // ---- The invariant ----

    ghost function Lim(): Limits
      reads this`finishDeadline, this`overallDeadline
    {
      Limits(finishDeadline, overallDeadline)
    }

    function Rec(): Record
      reads this`diagnosis, this`terminal, this`finalPending
    {
      Record(diagnosis, terminal, finalPending)
    }

    /** No native call was ever made and nothing native is held. */
    ghost predicate Untouched()
      reads this`trace, this`account, this`cancelEntered, this`bindEntered, this`bindCompleted,
            this`resourceReleaseAttempted, this`holder, this`finishObserved, this`finishTrue,
            this`enqueueReturned, this`finishId, this`createInstalled, this`createForwarded,
            this`createReturned, this`resource, this`published, this`exceptionObserved, this`staged,
            this`callbackDepth
    {
      && Below(trace, 0) && account == []
      && !cancelEntered && !bindEntered && !bindCompleted && !resourceReleaseAttempted && holder == 0
      && !finishObserved && !finishTrue && !enqueueReturned && finishId == 0
      && !createInstalled && !createForwarded && !createReturned
      && resource == NoResource && !published && !exceptionObserved && !staged
      && callbackDepth == 0
    }

    /** The claim behind a running request is held, and a recipe holds it for ever. */
    ghost predicate LatchOk()
      reads this`recipeEntered, this`requested, this`control, this`diagnosis, this`terminal, this`claims,
            this`releases, this`started
    {
      && (recipeEntered ==> requested && control.latched != NoOrigin && !diagnosis.retryable)
      && (requested && !terminal ==> control.latched != NoOrigin)
      && (diagnosis.retryable ==> terminal && requested)
      && claims == releases + (if control.latched != NoOrigin then 1 else 0)
      && started <= claims
      && (!requested || diagnosis.retryable ==> started <= releases)
    }

    ghost predicate ResourceOk()
      reads this`trace, this`account, this`bindEntered, this`bindCompleted, this`resource
    {
      && account == Account(trace)
      && (Called(BindHolder) in trace ==> bindEntered)
      && (bindCompleted ==> bindEntered && Returned(BindHolder) in trace)
      && (resource == AllocatedUnbound ==> Returned(FinishAllocate) in trace && !bindCompleted)
      && (resource == BoundLocal || resource == EnqueueEntered ==> bindCompleted)
    }

    ghost predicate SeenOk()
      reads this`finishTrue, this`finishObserved, this`terminal, this`phase, this`callbackId, this`seenAt,
            this`trace, this`finishDeadline, this`overallDeadline
    {
      && (finishTrue ==> finishObserved)
      && (finishTrue && !terminal && phase == Phase.FinishSubmitted ==>
            && callbackId != 0 && seenAt < |trace| && trace[seenAt].FinishSeen?
            && trace[seenAt].id == callbackId && trace[seenAt].accepted
            && trace[seenAt].qpc < finishDeadline && trace[seenAt].qpc < overallDeadline)
    }

    /** Holds at every point of the code, also inside native calls. */
    ghost predicate Core()
      reads this`finishDeadline, this`overallDeadline, this`pendingCount, this`trace, this`account, this`cancelEntered,
            this`bindEntered, this`bindCompleted, this`resourceReleaseAttempted, this`holder,
            this`finishObserved, this`finishTrue, this`enqueueReturned, this`finishId, this`createInstalled,
            this`createForwarded, this`createReturned, this`resource, this`published, this`exceptionObserved,
            this`staged, this`callbackDepth, this`recipeEntered, this`requested, this`control, this`diagnosis,
            this`terminal, this`claims, this`releases, this`started, this`phase, this`callbackId, this`seenAt
    {
      && TraceOk(trace, Lim())
      && (!recipeEntered ==> Untouched())
      && LatchOk() && ResourceOk() && SeenOk()
      && (published || createForwarded ==> createInstalled)
      && (createReturned ==> createForwarded)
      && (InRecipe(phase) && !terminal ==> recipeEntered)
      && (terminal && cancelEntered ==> published || diagnosis.restartRequired)
      && pendingCount <= PENDING_CAPACITY
    }

    /** Holds between visits and callbacks. */
    ghost predicate Valid()
      reads this`finishDeadline, this`overallDeadline, this`pendingCount, this`trace, this`account, this`cancelEntered,
            this`bindEntered, this`bindCompleted, this`resourceReleaseAttempted, this`holder,
            this`finishObserved, this`finishTrue, this`enqueueReturned, this`finishId, this`createInstalled,
            this`createForwarded, this`createReturned, this`resource, this`published, this`exceptionObserved,
            this`staged, this`callbackDepth, this`recipeEntered, this`requested, this`control, this`diagnosis,
            this`terminal, this`claims, this`releases, this`started, this`phase, this`callbackId, this`seenAt,
            this`enqueuedAt, this`ack
    {
      && Core() && callbackDepth == 0
      && (!terminal ==> StageOk())
      && (resource == NoResource || resource == LocalReleased || (terminal && diagnosis.restartRequired))
      && Accounted()
    }

    /** Once the submission has ended, what is held of the slot is what was done with it. */
    ghost predicate Accounted()
      reads this`resource, this`account
    {
      match resource
      case NoResource => account == []
      case LocalReleased => GivenBack(account)
      case _ => Retained(account) && (|account| == 3 ==> account[2] == Called(InverseOp(resource)))
    }

    /** The inverse of the allocation, or of the bind after it. */
    static function InverseOp(held: Resource): Op {
      if held == AllocatedUnbound then FinishRelease else ReleaseHolder
    }

    ghost predicate StageOk()
      reads this`createInstalled, this`enqueueReturned, this`finishId, this`trace, this`enqueuedAt, this`phase,
            this`recipeEntered, this`finishDeadline, this`overallDeadline, this`ack, this`createForwarded,
            this`createReturned, this`published
    {
      match phase
      case FinishSubmitted => recipeEntered && SubmittedOk()
      case FinishAccepted => recipeEntered && SubmittedOk() && AcceptedAt(trace, Lim(), ack)
      case Recreating =>
        && recipeEntered && createInstalled && Returned(Create) in trace
        && (createForwarded <==> createReturned)
        && (!createForwarded ==> Below(trace, FORWARD_RANK))
      case Published => recipeEntered && createInstalled && published
      case Armed => !recipeEntered
      case Requested => !recipeEntered
      case Qualifying => !recipeEntered
      case _ => false
    }

    ghost predicate SubmittedOk()
      reads this`createInstalled, this`enqueueReturned, this`finishId, this`trace, this`enqueuedAt
    {
      && !createInstalled && enqueueReturned && finishId != 0
      && Below(trace, CLEANUP_RANK) && Returned(Enqueue) in trace
      && enqueuedAt < |trace| && trace[enqueuedAt].Enqueued?
      && (trace[enqueuedAt].id == finishId || trace[enqueuedAt].id == 0)
    }

    lemma OpenIdle()
      requires Valid() && !recipeEntered
      ensures Core() && Below(trace, 0) && callbackDepth == 0 && resource == NoResource && account == []
      ensures !cancelEntered && !bindEntered && !bindCompleted && !resourceReleaseAttempted && holder == 0
      ensures !finishObserved && !finishTrue && !enqueueReturned && finishId == 0
      ensures !createInstalled && !createForwarded && !createReturned && !published && !exceptionObserved && !staged
    {
      hide TraceOk, Below, LatchOk, SeenOk, ResourceOk, StageOk;
    }

    /** What the invariant says of the recipe and the latch ... */
    lemma Opening()
      requires Valid()
      ensures Core() && callbackDepth == 0
      ensures recipeEntered ==> requested && control.latched != NoOrigin && !diagnosis.retryable
      ensures diagnosis.retryable ==> terminal && requested
      ensures !recipeEntered ==> !cancelEntered && !finishTrue && !createInstalled && !published
      ensures InRecipe(phase) && !terminal ==> recipeEntered
      ensures finishTrue ==> finishObserved
    {
      hide TraceOk, Below, ResourceOk, StageOk;
    }

    /** ... and of the phase. */
    lemma OpenPhase()
      requires Valid() && !terminal
      ensures phase == Phase.Requested || phase == Phase.Qualifying ==> !recipeEntered
      ensures phase == Phase.FinishSubmitted ==> recipeEntered && !createInstalled && enqueueReturned
      ensures phase == Phase.Recreating ==> recipeEntered && createInstalled
      ensures phase == Phase.Published ==> recipeEntered && createInstalled && published
      ensures (resource == NoResource || resource == LocalReleased) && Accounted()
    {
      hide TraceOk, Below, SeenOk, ResourceOk, LatchOk, Untouched;
    }

    /** What Valid says of an attempt whose Finish answer was accepted. */
    lemma OpenAccepted()
      requires Valid() && phase == Phase.FinishAccepted && !terminal
      ensures Submitting(CLEANUP_RANK) && Returned(Enqueue) in trace && !createForwarded && !createReturned
      ensures recipeEntered && callbackDepth == 0 && (resource == NoResource || resource == LocalReleased) && Accounted()
    {
      hide TraceOk, Below, LatchOk, SeenOk, Untouched, ResourceOk;
    }

    lemma CloseSubmitted()
      requires Core() && callbackDepth == 0
      requires resource == NoResource || resource == LocalReleased || (terminal && diagnosis.restartRequired)
      requires Accounted()
      requires !terminal ==> phase == Phase.FinishSubmitted && recipeEntered && SubmittedOk()
      ensures Valid()
    {
      hide TraceOk, Below, LatchOk, SeenOk, Untouched, ResourceOk, SubmittedOk;
    }

    lemma CloseRecreating()
      requires Core() && callbackDepth == 0 && (resource == NoResource || resource == LocalReleased) && Accounted()
      requires !terminal ==>
                 && phase == Phase.Recreating && recipeEntered && createInstalled && Returned(Create) in trace
                 && !createForwarded && !createReturned && Below(trace, FORWARD_RANK)
      ensures Valid()
    {
      hide TraceOk, Below, LatchOk, SeenOk, Untouched, ResourceOk;
    }

    // ---- The other threads ----

    /** Any thread's claim: the latch goes from nobody to the claimant or stays. */
    method ClaimControl(origin: Origin) returns (claimed: bool)
      requires origin != NoOrigin
      modifies this`control, this`claims
      ensures claimed ==> old(control.latched) == NoOrigin && control == old(control).(latched := origin) && claims == old(claims) + 1
      ensures !claimed ==> control == old(control) && claims == old(claims)
      ensures claimed <==>
                && old(control.latched) == NoOrigin && enabled && identityOk && !old(control.stopped) && old(control.ready)
                && (origin == Console ==> consoleWanted && old(control.consoleAvailable) && schema == 2)
    {
      if !enabled || control.stopped || !control.ready || !identityOk { return false; }
      if origin == Console && (!consoleWanted || !control.consoleAvailable || schema != 2) { return false; }
      claimed := control.latched == NoOrigin;
      if claimed {
        control := control.(latched := origin);
        claims := claims + 1;
      }
    }

    method Others()
      modifies this`control, this`claims, this`foreignFault
      ensures ControlEvolves(old(control), control) && (old(foreignFault) ==> foreignFault)
      ensures claims == old(claims) + (if old(control.latched) == NoOrigin && control.latched != NoOrigin then 1 else 0)
      ensures calm ==> control == old(control) && foreignFault == old(foreignFault)
    {
      if !calm {
        if {
          case true => var pipe := ClaimControl(Pipe);
          case true => var console := ClaimControl(Console);
          case true => control := control.(stopped := true);
          case true => control := control.(ready := false);
          case true => control := control.(consoleAvailable := !control.consoleAvailable);
          case true => foreignFault := true;
          case true =>
        }
      }
    }

    // ---- Faults, transitions and the record queue ----

    method Diagnose(r: Record)
      requires r.terminal && Worsens(diagnosis, r.diagnosis)
      modifies this`diagnosis, this`terminal, this`finalPending
      ensures Rec() == r
      ensures old(Core()) && (cancelEntered ==> published || r.diagnosis.restartRequired) ==> Core()
      ensures old(Valid()) && (cancelEntered ==> published || r.diagnosis.restartRequired) ==> Valid()
    {
      hide Core, StageOk, Accounted;
      Write(r);
    }

    method Write(r: Record)
      requires r.terminal && Worsens(diagnosis, r.diagnosis)
      modifies this`diagnosis, this`terminal, this`finalPending
      ensures Rec() == r
      ensures old(Core()) && (cancelEntered ==> published || r.diagnosis.restartRequired) ==> Core()
    {
      hide TraceOk, Untouched, ResourceOk;
      diagnosis, terminal, finalPending := r.diagnosis, r.terminal, r.finalPending;
    }

    method Fault(reason: Reason, outcome: Outcome, restart: bool)
      modifies this`diagnosis, this`terminal, this`finalPending
      ensures Rec() == Faulted(old(Rec()), Seen(), reason, outcome, restart)
      ensures terminal && Worsens(old(diagnosis), diagnosis)
      ensures diagnosis.restartRequired <==> old(diagnosis.restartRequired) || (restart && !Shielded(old(diagnosis), Seen(), reason))
      ensures old(Core()) && (cancelEntered ==> restart) ==> Core()
      ensures old(Valid()) && (cancelEntered ==> restart) ==> Valid()
    {
      RestartIsKept(Rec(), Seen(), reason, outcome, restart);
      hide Faulted, Core, Valid;
      Diagnose(Faulted(Rec(), Seen(), reason, outcome, restart));
    }

    function Seen(): Facts
      reads this`published, this`exceptionObserved, this`coherent
    {
      Facts(published, exceptionObserved, coherent)
    }

    /** Room for one more record, or a fault. */
    method Queue() returns (ok: bool)
      requires Core()
      modifies this`diagnosis, this`terminal, this`finalPending, this`pendingCount
      ensures Core() && (old(Valid()) ==> Valid()) && Worsens(old(diagnosis), diagnosis)
      ensures ok <==> old(pendingCount) < PENDING_CAPACITY
      ensures ok ==> Rec() == old(Rec()) && pendingCount == old(pendingCount) + 1
      ensures !ok ==> pendingCount == old(pendingCount)
                      && Rec() == Faulted(old(Rec()), Seen(), QuotaUnavailable, MechanicsFailed, true) && terminal
    {
      hide TraceOk, Untouched, LatchOk, ResourceOk, SeenOk, StageOk, Faulted;
      if pendingCount == PENDING_CAPACITY {
        Fault(QuotaUnavailable, MechanicsFailed, true);
        return false;
      }
      pendingCount := pendingCount + 1;
      return true;
    }

    /** Enters a phase and queues its record; a full queue or an exhausted sequence is a fault. */
    method Transition(next: Phase, now: nat) returns (ok: bool)
      requires Core()
      requires next == Phase.FinishSubmitted ==> !finishTrue
      requires InRecipe(next) ==> recipeEntered
      modifies this`diagnosis, this`terminal, this`finalPending, this`pendingCount,
               this`phase, this`qpc, this`transitionSequence
      ensures Core() && Worsens(old(diagnosis), diagnosis)
      ensures ok ==> Rec() == old(Rec()) && phase == next && transitionSequence <= old(transitionSequence) + 1
      ensures ok && old(phase) != next ==> qpc == now && transitionSequence == old(transitionSequence) + 1
      ensures !ok ==> terminal
      ensures old(pendingCount) < PENDING_CAPACITY && old(transitionSequence) != SEQUENCE_MAX ==> ok
      ensures phase == next || old(transitionSequence) == SEQUENCE_MAX
      ensures old(pendingCount) <= pendingCount <= old(pendingCount) + 1
    {
      hide Core, Valid, Faulted;
      if phase == next { return true; }
      if transitionSequence == SEQUENCE_MAX {
        Fault(QuotaUnavailable, MechanicsFailed, true);
        return false;
      }
      Enter(next);
      transitionSequence, qpc := transitionSequence + 1, now;
      ok := Queue();
    }

    method Enter(next: Phase)
      requires Core()
      requires next == Phase.FinishSubmitted ==> !finishTrue
      requires InRecipe(next) ==> recipeEntered
      modifies this`phase
      ensures Core() && phase == next
    {
      hide TraceOk, Untouched, LatchOk, ResourceOk;
      phase := next;
    }

    // ---- The trace ----

    ghost method Log(e: Event)
      requires Core() && (e.Called? ==> MayCall(trace, e.op, Lim()))
      requires e.Called? ==> recipeEntered && (e.op == BindHolder ==> bindEntered)
      requires !OfSlot(e)
      modifies this`trace
      ensures trace == old(trace) + [e] && Core()
      ensures old(Valid()) && !e.Called? ==> Valid()
      ensures if e.Called? then Below(trace, Rank(e.op) + 1) else Quiet(old(trace), trace)
    {
      hide TraceOk, MayCall, Account, OfSlot, LatchOk;
      TraceExtends(trace, e, Lim());
      AccountNext(trace, e);
      BelowNext(trace, e, Lim());
      trace := trace + [e];
    }

    /** What concerns the local slot is in its account as well. */
    ghost method LogSlot(e: Event)
      requires Core() && OfSlot(e) && (e.Called? ==> MayCall(trace, e.op, Lim()))
      requires recipeEntered
      modifies this`trace, this`account
      ensures trace == old(trace) + [e] && account == old(account) + [e] && Core()
      ensures if e.Called? then Below(trace, Rank(e.op) + 1) else Quiet(old(trace), trace)
    {
      hide TraceOk, MayCall, Account, OfSlot, LatchOk, Untouched, StageOk, Below, Quiet;
      TraceExtends(trace, e, Lim());
      AccountNext(trace, e);
      BelowNext(trace, e, Lim());
      trace, account := trace + [e], account + [e];
    }

    // ---- Clocks and leases ----

    method Clock() returns (ok: bool, now: nat)
      ensures calm ==> ok && now == clock
    {
      ok, now := *, *;
      if calm { ok, now := true, clock; }
    }

    /** Any check this model leaves abstract, and whatever other threads do meanwhile. */
    method Check() returns (ok: bool)
      modifies this`control, this`claims, this`foreignFault
      ensures ControlEvolves(old(control), control) && (old(foreignFault) ==> foreignFault)
      ensures old(Core()) ==> Core()
      ensures old(Valid()) ==> Valid()
      ensures calm ==> ok && control == old(control) && foreignFault == old(foreignFault)
    {
      hide TraceOk, Untouched, ResourceOk, SeenOk, StageOk;
      Others();
      ok := *;
      if calm { ok := true; }
    }

    /** The sticky loss of the clock. */
    method OwnerClockFault()
      requires Core()
      modifies this`diagnosis, this`terminal, this`finalPending
      ensures Core() && (old(Valid()) ==> Valid()) && Worsens(old(diagnosis), diagnosis)
      ensures old(terminal) ==> Rec() == old(Rec())
      ensures requested ==> terminal
    {
      hide Core, Valid, Faulted;
      if requested && !terminal { Fault(ClockFault, MechanicsFailed, cancelEntered); }
    }

    predicate InTime(now: nat)
      reads this`finishDeadline, this`overallDeadline, this`createInstalled
    {
      now < overallDeadline && (createInstalled || now < finishDeadline)
    }

    /** A clock sample before the deadlines that are in force. */
    method Timely() returns (ok: bool, now: nat)
      requires Core()
      modifies this`diagnosis, this`terminal, this`finalPending
      ensures Core() && (old(Valid()) ==> Valid()) && Worsens(old(diagnosis), diagnosis)
      ensures ok ==> Rec() == old(Rec()) && InTime(now)
      ensures old(terminal) ==> terminal
      ensures calm && InTime(clock) ==> ok && now == clock
    {
      hide Core, Valid, Faulted;
      ok, now := Clock();
      if !ok {
        OwnerClockFault();
      } else {
        ok := InTime(now);
      }
    }

    /** The end of a lease: the clock, and one more look at the world. */
    method Sample() returns (ok: bool)
      requires Core()
      modifies this`control, this`claims, this`foreignFault, this`diagnosis, this`terminal, this`finalPending,
               this`trace, this`qpc
      ensures Core() && (old(Valid()) ==> Valid()) && Worsens(old(diagnosis), diagnosis)
      ensures ControlEvolves(old(control), control) && (old(terminal) ==> terminal)
      ensures ok ==> Rec() == old(Rec()) && trace == old(trace) + [Sampled(qpc)] && InTime(qpc)
      ensures ok ==> Leased(trace, overallDeadline) && (!createInstalled ==> Leased(trace, finishDeadline))
      ensures !ok ==> trace == old(trace)
      ensures Quiet(old(trace), trace)
      ensures calm && InTime(clock) ==>
                ok && control == old(control) && foreignFault == old(foreignFault) && qpc == clock
    {
      hide Core, Valid, Faulted, Below, TraceOk;
      var now;
      ok, now := Timely();
      if !ok { return; }
      ok := Check();
      qpc := now;
      if ok { Log(Sampled(now)); }
    }

    /** The guard in front of everything native: the world is as qualified, and it is not too late.
        `identity` also compares the session that was published. */
    method Lease(identity: bool) returns (ok: bool)
      requires Core()
      modifies this`control, this`claims, this`foreignFault, this`diagnosis, this`terminal, this`finalPending,
               this`trace, this`qpc
      ensures Core() && (old(Valid()) ==> Valid()) && Worsens(old(diagnosis), diagnosis)
      ensures ControlEvolves(old(control), control) && (old(terminal) ==> terminal && !ok)
      ensures ok ==> Rec() == old(Rec()) && trace == old(trace) + [Sampled(qpc)] && InTime(qpc)
      ensures ok ==> Leased(trace, overallDeadline) && (!createInstalled ==> Leased(trace, finishDeadline))
      ensures !ok ==> trace == old(trace)
      ensures Quiet(old(trace), trace)
      ensures calm && !old(terminal) && InTime(clock) ==>
                ok && control == old(control) && foreignFault == old(foreignFault) && qpc == clock
    {
      hide Core, Valid, Faulted, Below, TraceOk;
      if terminal { return false; }
      ok := Check();
      if !ok { return; }
      if identity {
        ok := Check();
        if !ok {
          Fault(PublishedIdentityChanged, MechanicsFailed, true);
          return;
        }
      }
      ok := Sample();
    }

    // ---- Callbacks and native calls ----

    twostate predicate SameAnswer()
      reads this`finishObserved, this`finishTrue, this`callbackId
    {
      finishObserved == old(finishObserved) && finishTrue == old(finishTrue) && callbackId == old(callbackId)
    }

    method MarkException()
      requires Core() && recipeEntered
      modifies this`exceptionPending, this`exceptionObserved, this`recipeCompleted
      ensures Core() && (old(Valid()) ==> Valid()) && exceptionObserved
    {
      hide TraceOk, Untouched, LatchOk, ResourceOk, SeenOk, StageOk;
      exceptionObserved, recipeCompleted, exceptionPending := true, false, true;
    }

    /** A filter saw a native exception on its way out. */
    method ObserveFailure()
      requires Core() && recipeEntered
      modifies this`diagnosis, this`terminal, this`finalPending, this`exceptionPending,
               this`exceptionObserved, this`recipeCompleted
      ensures Core() && (old(Valid()) ==> Valid())
      ensures terminal && diagnosis.restartRequired && exceptionObserved && diagnosis.reason == NativeException
      ensures Worsens(old(diagnosis), diagnosis)
    {
      hide Core, Valid;
      MarkException();
      Fault(NativeException, NativeUnwind, true);
    }

    /** The engine's answer to the Finish request, on whatever thread and at whatever time. */
    method FinishObservation(owner: bool, id: nat, errorCall: bool, isTrue: bool)
      requires Core()
      modifies this`foreignFault, this`diagnosis, this`terminal, this`finalPending,
               this`qpc, this`callbackId, this`finishObserved, this`finishTrue, this`trace, this`seenAt
      ensures Core() && (old(Valid()) ==> Valid()) && Worsens(old(diagnosis), diagnosis)
      ensures (old(foreignFault) || !owner ==> foreignFault) && (old(terminal) ==> terminal) && Quiet(old(trace), trace)
      ensures !owner || old(terminal) || phase != Phase.FinishSubmitted ==> Rec() == old(Rec()) && SameAnswer() && trace == old(trace)
      ensures old(finishObserved) ==> SameAnswer() && (owner && phase == Phase.FinishSubmitted ==> terminal)
      ensures finishTrue && !old(finishTrue) ==>
                && isTrue && !errorCall && old(Awaited(id)) && callbackId == id && !terminal
                && trace == old(trace) + [FinishSeen(id, true, qpc)]
                && old(qpc) <= qpc < finishDeadline && qpc < overallDeadline
      ensures calm && owner && !old(terminal) && phase == Phase.FinishSubmitted && !old(finishObserved) && old(Awaited(id))
              && !errorCall && isTrue && old(qpc) <= clock < finishDeadline && clock < overallDeadline
              ==> finishTrue
    {
      hide Core, Valid, Faulted, Below;
      if !owner {
        foreignFault := true;
        return;
      }
      if terminal || phase != Phase.FinishSubmitted { return; }
      var epochOk: bool := *;
      if calm { epochOk := true; }
      if finishObserved || !Awaited(id) || !epochOk {
        Fault(CallbackInvalid, MechanicsFailed, true);
      } else {
        Judge(id, errorCall, isTrue);
      }
    }

    predicate Awaited(id: nat)
      reads this`finishId
    {
      id != 0 && (finishId == 0 || id == finishId)
    }

    method Judge(id: nat, errorCall: bool, isTrue: bool)
      requires Core() && !finishObserved && phase == Phase.FinishSubmitted && !terminal && id != 0
      modifies this`diagnosis, this`terminal, this`finalPending,
               this`qpc, this`callbackId, this`finishObserved, this`finishTrue, this`trace, this`seenAt
      ensures Core() && (old(Valid()) ==> Valid()) && Worsens(old(diagnosis), diagnosis)
      ensures finishObserved && Quiet(old(trace), trace)
      ensures finishTrue ==>
                && isTrue && !errorCall && !terminal && callbackId == id
                && trace == old(trace) + [FinishSeen(id, true, qpc)]
                && old(qpc) <= qpc < finishDeadline && qpc < overallDeadline
      ensures !finishTrue ==> terminal
      ensures calm && !errorCall && isTrue && old(qpc) <= clock < finishDeadline && clock < overallDeadline ==> finishTrue
    {
      hide Core, Valid, Faulted;
      NothingSeen();
      var reason := Receive(id);
      if reason == NoReason && (errorCall || !isTrue) { reason := FinishRejected; }
      if reason != NoReason {
        Fault(reason, MechanicsFailed, true);
      } else {
        Acknowledge();
      }
    }

    lemma NothingSeen()
      requires Core() && !finishObserved
      ensures !finishTrue
    {
      hide TraceOk, Untouched, LatchOk, ResourceOk;
    }

    /** Takes note of the callback and of its time. */
    method Receive(id: nat) returns (reason: Reason)
      requires Core() && !finishObserved && phase == Phase.FinishSubmitted && !terminal
      modifies this`callbackId, this`finishObserved, this`qpc
      ensures Core() && finishObserved && callbackId == id && (old(Valid()) ==> Valid())
      ensures reason == NoReason ==> old(qpc) <= qpc < finishDeadline && qpc < overallDeadline
      ensures calm && old(qpc) <= clock < finishDeadline && clock < overallDeadline ==> reason == NoReason
    {
      hide TraceOk, LatchOk, ResourceOk, StageOk;
      finishObserved, callbackId := true, id;
      var read, now := Clock();
      if !read || now < qpc { return ClockFault; }
      qpc := now;
      return if now >= finishDeadline || now >= overallDeadline then FinishTimeout else NoReason;
    }

    /** The callback was the awaited one, and it was true. */
    method Acknowledge()
      requires Core() && finishObserved && callbackId != 0 && phase == Phase.FinishSubmitted && !terminal
      requires qpc < finishDeadline && qpc < overallDeadline
      modifies this`finishTrue, this`trace, this`seenAt
      ensures Core() && finishTrue && (old(Valid()) ==> Valid())
      ensures trace == old(trace) + [FinishSeen(callbackId, true, qpc)] && Quiet(old(trace), trace)
    {
      hide Core, Valid, Quiet;
      Log(FinishSeen(callbackId, true, qpc));
      NoteSeen();
    }

    method NoteSeen()
      requires Core() && finishObserved && callbackId != 0 && phase == Phase.FinishSubmitted && !terminal
      requires qpc < finishDeadline && qpc < overallDeadline
      requires |trace| > 0 && trace[|trace| - 1] == FinishSeen(callbackId, true, qpc)
      modifies this`finishTrue, this`seenAt
      ensures Core() && finishTrue && (old(Valid()) ==> Valid())
    {
      assert recipeEntered;
      hide TraceOk, Untouched, LatchOk, ResourceOk, StageOk;
      finishTrue, seenAt := true, |trace| - 1;
    }

    /** The decisions of the Create guard before it does anything. */
    method CreateEntry(owner: bool, id: nat) returns (enter: bool)
      requires Core()
      modifies this`foreignFault, this`diagnosis, this`terminal, this`finalPending
      ensures Core() && (old(Valid()) ==> Valid()) && Worsens(old(diagnosis), diagnosis)
      ensures (old(foreignFault) || !owner ==> foreignFault) && (old(terminal) ==> terminal)
      ensures old(terminal) || !createInstalled || phase != Phase.Recreating ==> Rec() == old(Rec())
      ensures enter ==>
                && owner && !terminal && createInstalled && phase == Phase.Recreating
                && id == createId != 0 && callbackDepth == 0 && Rec() == old(Rec())
      ensures calm && owner && !old(terminal) && createInstalled && phase == Phase.Recreating
              && id == createId != 0 && callbackDepth == 0
              ==> enter
    {
      hide Core, Valid, Faulted;
      if !owner {
        foreignFault := true;
        return false;
      }
      if terminal || !createInstalled || phase != Phase.Recreating || id != createId || id == 0 { return false; }
      var attributed: bool := *;
      if calm { attributed := true; }
      if callbackDepth != 0 || !attributed {
        Fault(CallbackInvalid, MechanicsFailed, true);
        return false;
      }
      return true;
    }

    /** Something happens while a native call runs. The Create guard cannot be entered here. */
    method Interrupt()
      requires Core() && (createInstalled ==> callbackDepth > 0)
      modifies this`control, this`claims, this`foreignFault, this`diagnosis, this`terminal, this`finalPending,
               this`qpc, this`callbackId, this`finishObserved, this`finishTrue, this`trace, this`seenAt
      ensures Core() && Worsens(old(diagnosis), diagnosis)
      ensures ControlEvolves(old(control), control) && (old(terminal) ==> terminal) && Quiet(old(trace), trace)
      ensures phase != Phase.FinishSubmitted ==> SameAnswer() && (!createInstalled ==> Rec() == old(Rec()))
    {
      hide Core, Valid, Faulted, Below, TraceOk, Quiet;
      var owner: bool, id: nat, errorCall: bool, isTrue: bool := *, *, *, *;
      NothingIsQuiet(trace);
      if {
        case true => var _ := Check();
        case true => FinishObservation(owner, id, errorCall, isTrue);
        case true =>
          var entered := CreateEntry(owner, id);
          assert !entered;
      }
    }

    /** Other threads act and the engine calls back, any number of times. */
    method Interruptions()
      requires Core() && (createInstalled ==> callbackDepth > 0)
      modifies this`control, this`claims, this`foreignFault, this`diagnosis, this`terminal, this`finalPending,
               this`qpc, this`callbackId, this`finishObserved, this`finishTrue, this`trace, this`seenAt
      ensures Core() && Worsens(old(diagnosis), diagnosis)
      ensures ControlEvolves(old(control), control) && (old(terminal) ==> terminal) && Quiet(old(trace), trace)
      ensures phase != Phase.FinishSubmitted ==> SameAnswer() && (!createInstalled ==> Rec() == old(Rec()))
      ensures calm ==> trace == old(trace) && Rec() == old(Rec()) && SameAnswer() && qpc == old(qpc)
                       && control == old(control) && foreignFault == old(foreignFault)
    {
      hide Core, Faulted, Below;
      if calm { return; }
      var count: nat := *;
      while count > 0
        invariant Core() && Worsens(old(diagnosis), diagnosis)
        invariant ControlEvolves(old(control), control) && (old(terminal) ==> terminal) && Quiet(old(trace), trace)
        invariant phase != Phase.FinishSubmitted ==> SameAnswer() && (!createInstalled ==> Rec() == old(Rec()))
      {
        Interrupt();
        count := count - 1;
      }
    }

    /** A native call. It may throw, and while it runs anything may interrupt it. */
    method Native(op: Op) returns (threw: bool)
      requires Core() && recipeEntered && MayCall(trace, op, Lim()) && Rank(op) != RELEASE_RANK
      requires op == BindHolder ==> bindEntered
      requires createInstalled ==> callbackDepth > 0
      modifies this`control, this`claims, this`foreignFault, this`diagnosis, this`terminal, this`finalPending,
               this`qpc, this`callbackId, this`finishObserved, this`finishTrue, this`trace, this`seenAt
      ensures Core() && Worsens(old(diagnosis), diagnosis)
      ensures ControlEvolves(old(control), control) && (old(terminal) ==> terminal)
      ensures phase != Phase.FinishSubmitted ==> SameAnswer() && (!createInstalled ==> Rec() == old(Rec()))
      ensures old(trace) + [Called(op)] <= trace && Below(trace, Rank(op) + 1)
      ensures !threw ==> Returned(op) in trace
      ensures calm ==>
                && !threw && trace == old(trace) + [Called(op), Returned(op)] && Rec() == old(Rec()) && SameAnswer()
                && qpc == old(qpc) && control == old(control) && foreignFault == old(foreignFault)
    {
      hide Core, Valid, MayCall, Faulted, Below, TraceOk;
      Log(Called(op));
      ghost var called := trace;
      Interruptions();
      threw := *;
      if calm { threw := false; }
      if !threw { Log(Returned(op)); }
      QuietStaysBelow(called, trace, Rank(op) + 1);
    }

    // ---- Submitting the Finish request ----

    /** A point inside the submission, with every call so far ranking below n. */
    ghost predicate Submitting(n: nat)
      reads this`finishDeadline, this`overallDeadline, this`pendingCount, this`trace, this`account, this`cancelEntered,
            this`bindEntered, this`bindCompleted, this`resourceReleaseAttempted, this`holder,
            this`finishObserved, this`finishTrue, this`enqueueReturned, this`finishId, this`createInstalled,
            this`createForwarded, this`createReturned, this`resource, this`published, this`exceptionObserved,
            this`staged, this`callbackDepth, this`recipeEntered, this`requested, this`control, this`diagnosis,
            this`terminal, this`claims, this`releases, this`started, this`phase, this`callbackId, this`seenAt
    {
      Core() && recipeEntered && callbackDepth == 0 && !createInstalled && Below(trace, n)
    }

    /** Nothing is wrong and there is time left. */
    predicate Fine()
      reads this`terminal, this`qpc, this`finishDeadline, this`overallDeadline
    {
      calm && !terminal && qpc <= clock < finishDeadline && clock < overallDeadline
    }

    lemma SubmittingGrows(n: nat, m: nat)
      requires Submitting(n) && n <= m
      ensures Submitting(m)
    {
      hide Core, TraceOk;
      BelowGrows(trace, n, m);
    }

    method EnterRecipe()
      requires Core() && !recipeEntered && requested && !terminal
      modifies this`recipeEntered, this`recipeCompleted, this`staged
      ensures Submitting(0) && recipeEntered
    {
      hide TraceOk, Below;
      recipeEntered, recipeCompleted, staged := true, false, true;
    }

    /** A native call on the main line of the submission. */
    method Invoke(op: Op) returns (threw: bool)
      requires Submitting(Rank(op)) && Rank(op) < RELEASE_RANK
      requires op != FinishType ==> Returned(Previous(op)) in trace
      requires op != FinishAllocate ==> Leased(trace, finishDeadline) && Leased(trace, overallDeadline)
      requires op == BindHolder ==> bindEntered
      modifies this`control, this`claims, this`foreignFault, this`diagnosis, this`terminal, this`finalPending,
               this`qpc, this`callbackId, this`finishObserved, this`finishTrue, this`trace, this`seenAt
      ensures Submitting(Rank(op) + 1) && Worsens(old(diagnosis), diagnosis)
      ensures ControlEvolves(old(control), control) && old(trace) <= trace && (old(terminal) ==> terminal)
      ensures phase != Phase.FinishSubmitted ==> SameAnswer() && Rec() == old(Rec())
      ensures !threw ==> Returned(op) in trace
      ensures calm ==> !threw && Rec() == old(Rec()) && SameAnswer() && qpc == old(qpc)
    {
      hide Core, TraceOk, Below, Worsens;
      MayGoOn(trace, op, Lim());
      hide MayCall, Leased;
      threw := Native(op);
    }

    /** A lease on the main line, which loses nothing of what was called before. */
    method Extend(ghost n: nat, ghost op: Op) returns (ok: bool)
      requires Submitting(n) && Returned(op) in trace
      modifies this`control, this`claims, this`foreignFault, this`diagnosis, this`terminal, this`finalPending,
               this`trace, this`qpc
      ensures Submitting(n) && Returned(op) in trace && Worsens(old(diagnosis), diagnosis)
      ensures ControlEvolves(old(control), control) && old(trace) <= trace
      ensures ok ==> !terminal && Leased(trace, finishDeadline) && Leased(trace, overallDeadline)
      ensures old(Fine()) ==> ok && Fine()
    {
      hide Core, TraceOk, Below, Leased, Valid, Worsens, ControlEvolves;
      ok := Lease(false);
      QuietStaysBelow(old(trace), trace, n);
      QuietKeeps(old(trace), trace, Returned(op));
    }

    /** A check on the main line. */
    method Look(ghost n: nat) returns (ok: bool)
      requires Submitting(n)
      modifies this`control, this`claims, this`foreignFault
      ensures Submitting(n) && ControlEvolves(old(control), control)
      ensures calm ==> ok
    {
      hide Core, TraceOk, Below, Valid;
      ok := Check();
    }

    /** A lease and then such a call. */
    method Step(op: Op, reason: Reason, restart: bool) returns (v: Verdict)
      requires Submitting(Rank(op)) && Rank(op) < RELEASE_RANK && op != BindHolder
      requires op != FinishType ==> Returned(Previous(op)) in trace
      requires phase != Phase.FinishSubmitted
      modifies this`control, this`claims, this`foreignFault, this`diagnosis, this`terminal, this`finalPending,
               this`qpc, this`callbackId, this`finishObserved, this`finishTrue, this`trace, this`seenAt
      ensures Submitting(Rank(op) + 1) && Worsens(old(diagnosis), diagnosis) && SameAnswer()
      ensures ControlEvolves(old(control), control) && old(trace) <= trace
      ensures v == Go || v == Threw || v == Refuse(reason, restart)
      ensures v.Go? ==> Returned(op) in trace && !terminal
      ensures old(Fine()) ==> v.Go? && Fine()
    {
      hide Core, TraceOk, Below, Leased, MayCall, Valid, Faulted;
      var ok := Lease(false);
      QuietStaysBelow(old(trace), trace, Rank(op));
      if !ok {
        BelowGrows(trace, Rank(op), Rank(op) + 1);
        return Refuse(reason, restart);
      }
      if op != FinishType { QuietKeeps(old(trace), trace, Returned(Previous(op))); }
      var threw := Invoke(op);
      return if threw then Threw else Go;
    }

    /** Descriptor, type and empty holder. */
    method Describe() returns (v: Verdict)
      requires Submitting(0) && phase == Phase.Qualifying
      modifies this`control, this`claims, this`foreignFault, this`diagnosis, this`terminal, this`finalPending,
               this`qpc, this`callbackId, this`finishObserved, this`finishTrue, this`trace, this`seenAt,
               this`finishKind, this`holder
      ensures Submitting(2) && Worsens(old(diagnosis), diagnosis) && SameAnswer()
      ensures ControlEvolves(old(control), control) && old(trace) <= trace
      ensures v.Go? ==> !terminal && holder == 0 && 0 < finishKind < TYPE_LIMIT && Returned(InitHolder) in trace
      ensures v.Refuse? ==> !v.restart
      ensures v != Left
      ensures old(Fine()) ==> v.Go? && Fine()
    {
      hide Submitting, TraceOk, Below, Leased, MayCall, Valid, Quiet;
      v := AskKind();
      if !v.Go? {
        SubmittingGrows(1, 2);
        return;
      }
      v := Step(InitHolder, RequestPoolUnavailable, false);
      if v.Go? {
        AnswerHolder(2, 0);
        if holder != 0 { v := Refuse(DescriptorUnavailable, false); }
      }
    }

    /** The type of the request, as the native registry knows it. */
    method AskKind() returns (v: Verdict)
      requires Submitting(0) && phase == Phase.Qualifying
      modifies this`control, this`claims, this`foreignFault, this`diagnosis, this`terminal, this`finalPending,
               this`qpc, this`callbackId, this`finishObserved, this`finishTrue, this`trace, this`seenAt,
               this`finishKind
      ensures Submitting(1) && Worsens(old(diagnosis), diagnosis) && SameAnswer()
      ensures ControlEvolves(old(control), control) && old(trace) <= trace
      ensures v.Go? ==> !terminal && 0 < finishKind < TYPE_LIMIT && Returned(FinishType) in trace
      ensures v.Refuse? ==> !v.restart
      ensures v != Left
      ensures old(Fine()) ==> v.Go? && Fine()
    {
      hide Submitting, TraceOk, Below, Leased, MayCall, Valid, Quiet;
      v := Step(FinishType, DescriptorUnavailable, false);
      if v.Go? {
        finishKind := *;
        if calm { finishKind := 1; }
        if finishKind == 0 || finishKind >= TYPE_LIMIT { v := Refuse(RequestPoolUnavailable, false); }
      }
    }

    /** What the last native call left in the holder. */
    method AnswerHolder(ghost n: nat, expected: nat)
      requires Submitting(n)
      modifies this`holder
      ensures Submitting(n) && (calm ==> holder == expected)
    {
      hide TraceOk, Below;
      holder := *;
      if calm { holder := expected; }
    }

    method Hold(ghost n: nat, next: Resource)
      requires Submitting(n)
      requires next == AllocatedUnbound ==> Returned(FinishAllocate) in trace && !bindCompleted
      requires next == BoundLocal || next == EnqueueEntered ==> bindCompleted
      modifies this`resource
      ensures Submitting(n) && resource == next
    {
      hide TraceOk, Below, LatchOk, SeenOk;
      resource := next;
    }

    /** One typed slot: below sixteen it is owned from here on, anything else is a refusal. */
    method Allocate() returns (v: Verdict)
      requires Submitting(2) && phase == Phase.Qualifying && Returned(InitHolder) in trace
      requires resource == NoResource && account == [] && !bindCompleted && !terminal
      modifies this`control, this`claims, this`foreignFault, this`diagnosis, this`terminal, this`finalPending,
               this`qpc, this`callbackId, this`finishObserved, this`finishTrue, this`trace, this`seenAt,
               this`finishSlot, this`resource, this`account
      ensures Submitting(3) && Worsens(old(diagnosis), diagnosis) && SameAnswer()
      ensures ControlEvolves(old(control), control) && old(trace) <= trace
      ensures v.Go? ==> !terminal && finishSlot < FINISH_SLOTS && Returned(FinishAllocate) in trace
      ensures v.Go? ==> resource == AllocatedUnbound && account == [Allocated(finishSlot)]
      ensures !v.Go? ==> resource == NoResource && account == []
      ensures v == Go || v == Threw || v == Refuse(RequestPoolUnavailable, false)
      ensures v.Refuse? ==> trace[|trace| - 1] == Allocated(finishSlot)
      ensures old(Fine()) ==> v.Go? && Fine()
    {
      hide Core, TraceOk, Below, Leased, MayCall, Valid, Quiet;
      var threw := AskSlot();
      if threw { return Threw; }
      if finishSlot >= FINISH_SLOTS { return Refuse(RequestPoolUnavailable, false); }
      Hold(3, AllocatedUnbound);
      return Go;
    }

    /** The allocation and its answer. */
    method AskSlot() returns (threw: bool)
      requires Submitting(2) && phase == Phase.Qualifying && Returned(InitHolder) in trace && account == [] && !terminal
      modifies this`control, this`claims, this`foreignFault, this`diagnosis, this`terminal, this`finalPending,
               this`qpc, this`callbackId, this`finishObserved, this`finishTrue, this`trace, this`seenAt,
               this`finishSlot, this`account
      ensures Submitting(3) && Worsens(old(diagnosis), diagnosis) && SameAnswer()
      ensures ControlEvolves(old(control), control) && old(trace) <= trace && terminal == old(terminal)
      ensures threw ==> account == []
      ensures !threw ==>
                && Returned(FinishAllocate) in trace && trace[|trace| - 1] == Allocated(finishSlot)
                && account == if finishSlot < FINISH_SLOTS then [Allocated(finishSlot)] else []
      ensures calm ==> !threw && finishSlot < FINISH_SLOTS && qpc == old(qpc)
    {
      hide Submitting, TraceOk, Below, Leased, MayCall, Valid, Quiet;
      threw := Invoke(FinishAllocate);
      if threw { return; }
      finishSlot := *;
      if calm { finishSlot := 0; }
      LogAllocated();
    }

    ghost method LogAllocated()
      requires Submitting(3) && account == [] && Returned(FinishAllocate) in trace
      modifies this`trace, this`account
      ensures Submitting(3) && trace == old(trace) + [Allocated(finishSlot)] && Returned(FinishAllocate) in trace
      ensures account == if finishSlot < FINISH_SLOTS then [Allocated(finishSlot)] else []
    {
      hide Core, Below, TraceOk;
      ghost var e := Allocated(finishSlot);
      if OfSlot(e) { LogSlot(e); } else { Log(e); }
      QuietStaysBelow(old(trace), trace, 3);
      QuietKeeps(old(trace), trace, Returned(FinishAllocate));
    }

    method BeginBind()
      requires Submitting(3) && !bindCompleted
      modifies this`bindEntered
      ensures Submitting(3) && bindEntered
    {
      hide TraceOk, Below, LatchOk, SeenOk;
      bindEntered := true;
    }

    method EndBind()
      requires Submitting(4) && bindEntered && Returned(BindHolder) in trace
      modifies this`bindCompleted, this`resource
      ensures Submitting(4) && bindCompleted && resource == BoundLocal
    {
      hide TraceOk, Below, LatchOk, SeenOk;
      bindCompleted, resource := true, BoundLocal;
    }

    /** The slot bound to the holder. A bind that throws leaves neither provable. */
    method Bind() returns (v: Verdict)
      requires Submitting(3) && phase == Phase.Qualifying && Returned(FinishAllocate) in trace
      requires resource == AllocatedUnbound && !bindEntered && !bindCompleted
      modifies this`control, this`claims, this`foreignFault, this`diagnosis, this`terminal, this`finalPending,
               this`qpc, this`callbackId, this`finishObserved, this`finishTrue, this`trace, this`seenAt,
               this`bindEntered, this`bindCompleted, this`holder, this`resource
      ensures Submitting(4) && Worsens(old(diagnosis), diagnosis) && SameAnswer()
      ensures ControlEvolves(old(control), control) && old(trace) <= trace
      ensures v.Go? ==> !terminal && holder == finishKind * 0x1_0000 + finishSlot
      ensures v.Go? ==> bindCompleted && resource == BoundLocal && Returned(BindHolder) in trace
      ensures resource == AllocatedUnbound || resource == BoundLocal
      ensures v.Threw? ==> bindEntered && !bindCompleted
      ensures v == Go || v == Threw || v == Refuse(SourceChanged, false) || v == Refuse(DescriptorUnavailable, true)
      ensures old(Fine()) ==> v.Go? && Fine()
    {
      hide Submitting, TraceOk, Below, Leased, MayCall, Valid;
      var ok := Extend(3, FinishAllocate);
      if !ok {
        SubmittingGrows(3, 4);
        return Refuse(SourceChanged, false);
      }
      v := BindLeased();
    }

    method BindLeased() returns (v: Verdict)
      requires Submitting(3) && phase == Phase.Qualifying && Returned(FinishAllocate) in trace && !terminal
      requires Leased(trace, finishDeadline) && Leased(trace, overallDeadline)
      requires resource == AllocatedUnbound && !bindCompleted
      modifies this`control, this`claims, this`foreignFault, this`diagnosis, this`terminal, this`finalPending,
               this`qpc, this`callbackId, this`finishObserved, this`finishTrue, this`trace, this`seenAt,
               this`bindEntered, this`bindCompleted, this`holder, this`resource
      ensures Submitting(4) && Worsens(old(diagnosis), diagnosis) && SameAnswer()
      ensures ControlEvolves(old(control), control) && old(trace) <= trace
      ensures v.Go? ==> !terminal && holder == finishKind * 0x1_0000 + finishSlot
      ensures v.Go? ==> bindCompleted && resource == BoundLocal && Returned(BindHolder) in trace
      ensures resource == AllocatedUnbound || resource == BoundLocal
      ensures v.Threw? ==> bindEntered && !bindCompleted
      ensures v == Go || v == Threw || v == Refuse(DescriptorUnavailable, true)
      ensures old(Fine()) ==> v.Go? && Fine()
    {
      hide Submitting, TraceOk, Below, Leased, MayCall, Valid;
      BeginBind();
      var threw := Invoke(BindHolder);
      if threw { return Threw; }
      EndBind();
      AnswerHolder(4, finishKind * 0x1_0000 + finishSlot);
      return if holder == finishKind * 0x1_0000 + finishSlot then Go else Refuse(DescriptorUnavailable, true);
    }

    /** The request filled, and the old heartbeat retired. */
    method Fill() returns (v: Verdict)
      requires Submitting(4) && phase == Phase.Qualifying && Returned(BindHolder) in trace
      modifies this`control, this`claims, this`foreignFault, this`diagnosis, this`terminal, this`finalPending,
               this`qpc, this`callbackId, this`finishObserved, this`finishTrue, this`trace, this`seenAt,
               this`bindingSuspended
      ensures Submitting(6) && Worsens(old(diagnosis), diagnosis) && SameAnswer()
      ensures ControlEvolves(old(control), control) && old(trace) <= trace
      ensures v.Go? ==> !terminal && Returned(CopyString) in trace && Leased(trace, finishDeadline) && Leased(trace, overallDeadline)
      ensures v != Left
      ensures old(Fine()) ==> v.Go? && Fine()
    {
      hide Submitting, TraceOk, Below, Leased, MayCall, Valid, Quiet;
      v := Step(ResolveHolder, DescriptorUnavailable, true);
      if v.Go? {
        var resolved := Look(5);
        if !resolved { v := Refuse(DescriptorUnavailable, true); }
      }
      if !v.Go? {
        SubmittingGrows(5, 6);
        return;
      }
      v := Step(CopyString, DescriptorUnavailable, true);
      if v.Go? { v := Retire(); }
    }

    method Retire() returns (v: Verdict)
      requires Submitting(6) && phase == Phase.Qualifying && Returned(CopyString) in trace && !terminal
      modifies this`control, this`claims, this`foreignFault, this`diagnosis, this`terminal, this`finalPending,
               this`qpc, this`trace, this`bindingSuspended
      ensures Submitting(6) && Worsens(old(diagnosis), diagnosis)
      ensures ControlEvolves(old(control), control) && old(trace) <= trace
      ensures v.Go? ==> !terminal && Returned(CopyString) in trace && Leased(trace, finishDeadline) && Leased(trace, overallDeadline)
      ensures v == Go || v == Refuse(SourceChanged, false) || v == Refuse(HeartbeatUnavailable, false)
           || (v.Refuse? && v.reason == RetirementFailed)
      ensures old(Fine()) ==> v.Go? && Fine()
    {
      hide Submitting, TraceOk, Below, Leased, MayCall, Valid;
      var ok := Extend(6, CopyString);
      if !ok { return Refuse(SourceChanged, false); }
      bindingSuspended := true;
      ok := Look(6);
      if ok { ok := Extend(6, CopyString); }
      if !ok {
        var inert: bool := *;
        return Refuse(RetirementFailed, inert);
      }
      ok := Look(6);
      return if ok then Go else Refuse(HeartbeatUnavailable, false);
    }

    method BeginCancel()
      requires Submitting(6) && !terminal
      modifies this`cancelEntered
      ensures Submitting(6) && cancelEntered
    {
      hide TraceOk, Below, LatchOk, SeenOk, ResourceOk;
      cancelEntered := true;
    }

    /** The old heartbeat cancelled: from here every failure demands a restart. */
    method CancelHeartbeat() returns (v: Verdict)
      requires Submitting(6) && phase == Phase.Qualifying && Returned(CopyString) in trace && !terminal
      requires Leased(trace, finishDeadline) && Leased(trace, overallDeadline)
      modifies this`control, this`claims, this`foreignFault, this`diagnosis, this`terminal, this`finalPending,
               this`qpc, this`callbackId, this`finishObserved, this`finishTrue, this`trace, this`seenAt,
               this`cancelEntered
      ensures Submitting(7) && Worsens(old(diagnosis), diagnosis) && SameAnswer() && cancelEntered
      ensures ControlEvolves(old(control), control) && old(trace) <= trace
      ensures v.Go? ==> !terminal && Returned(Cancel) in trace && Leased(trace, finishDeadline) && Leased(trace, overallDeadline)
      ensures v == Go || v == Threw || v == Refuse(LifecycleChanged, true)
      ensures old(Fine()) ==> v.Go? && Fine()
    {
      hide Submitting, TraceOk, Below, Leased, MayCall, Valid;
      BeginCancel();
      var threw := Invoke(Cancel);
      if threw { return Threw; }
      var ok := Extend(7, Cancel);
      if ok { ok := Look(7); }
      return if ok then Go else Refuse(LifecycleChanged, true);
    }

    /** What the enqueue call answered. A callback may already have been here: its id counts if
        the answer is none, and must be the answer otherwise. */
    method TakeAnswer(id: nat) returns (v: Verdict)
      requires Submitting(8) && Returned(Enqueue) in trace && finishId == 0
      modifies this`enqueueReturned, this`finishId, this`trace, this`enqueuedAt, this`recipeCompleted
      ensures Submitting(8) && enqueueReturned && old(trace) <= trace
      ensures v.Go? ==> SubmittedOk() && recipeCompleted
      ensures v == Go || v == Refuse(FinishEnqueueFailed, true) || v == Refuse(CallbackInvalid, true)
      ensures v.Go? <==> if id != 0 then !finishObserved || id == callbackId else finishObserved && callbackId != 0
      ensures v.Go? ==> finishId == (if id != 0 then id else callbackId)
    {
      hide Submitting, Below, TraceOk;
      LogAnswer(id);
      NoteAnswer();
      if (id != 0 && finishObserved && id != callbackId) || (id == 0 && !finishObserved) {
        return Refuse(FinishEnqueueFailed, true);
      }
      NameFinish(if id != 0 then id else callbackId);
      if finishId == 0 { return Refuse(CallbackInvalid, true); }
      recipeCompleted := true;
      return Go;
    }

    ghost method LogAnswer(id: nat)
      requires Submitting(8) && Returned(Enqueue) in trace
      modifies this`trace
      ensures Submitting(8) && !createInstalled && Below(trace, CLEANUP_RANK) && Returned(Enqueue) in trace
      ensures trace == old(trace) + [Enqueued(id)]
    {
      hide Core, Below, TraceOk;
      Log(Enqueued(id));
      QuietStaysBelow(old(trace), trace, 8);
      QuietKeeps(old(trace), trace, Returned(Enqueue));
      BelowGrows(trace, 8, CLEANUP_RANK);
    }

    method NoteAnswer()
      requires Submitting(8) && |trace| > 0
      modifies this`enqueueReturned, this`enqueuedAt
      ensures Submitting(8) && enqueueReturned && enqueuedAt == |trace| - 1
    {
      hide TraceOk, Below, LatchOk, SeenOk, ResourceOk;
      enqueueReturned, enqueuedAt := true, |trace| - 1;
    }

    method NameFinish(id: nat)
      requires Submitting(8)
      modifies this`finishId
      ensures Submitting(8) && finishId == id
    {
      hide TraceOk, Below, LatchOk, SeenOk, ResourceOk;
      finishId := id;
    }

    method Send() returns (v: Verdict)
      requires Submitting(7) && phase == Phase.Qualifying && Returned(Cancel) in trace && bindCompleted && !terminal
      requires Leased(trace, finishDeadline) && Leased(trace, overallDeadline)
      requires !finishObserved && !finishTrue && finishId == 0
      modifies this`control, this`claims, this`foreignFault, this`diagnosis, this`terminal, this`finalPending,
               this`qpc, this`callbackId, this`finishObserved, this`finishTrue, this`trace, this`seenAt,
               this`pendingCount, this`phase, this`transitionSequence, this`resource,
               this`enqueueReturned, this`finishId, this`enqueuedAt, this`recipeCompleted
      ensures Submitting(8) && Worsens(old(diagnosis), diagnosis)
      ensures ControlEvolves(old(control), control) && old(trace) <= trace
      ensures resource == EnqueueEntered || resource == old(resource)
      ensures v.Go? ==> phase == Phase.FinishSubmitted && SubmittedOk() && resource == EnqueueEntered
      ensures v.Left? ==> terminal
      ensures v.Refuse? ==> v.restart
      ensures old(Fine()) && old(pendingCount) < PENDING_CAPACITY && old(transitionSequence) != SEQUENCE_MAX ==>
                v.Go? && !terminal
    {
      hide Core, TraceOk, Below, Leased, MayCall, Valid, SubmittedOk, Submitting;
      var ok := MoveOn(7, Phase.FinishSubmitted);
      if !ok {
        SubmittingGrows(7, 8);
        return Left;
      }
      Hold(7, EnqueueEntered);
      var threw := Invoke(Enqueue);
      if threw { return Threw; }
      var id: nat := *;
      if calm { id := 1; }
      v := TakeAnswer(id);
    }

    // ---- Giving the local Finish resource back ----

    /** Whether the inverse of what was done is provable. A bind that was entered but did not
        complete may have changed anything. */
    method Inverse() returns (proven: bool)
      requires Submitting(RELEASE_RANK)
      modifies this`control, this`claims, this`foreignFault, this`trace, this`account
      ensures Submitting(RELEASE_RANK) && ControlEvolves(old(control), control)
      ensures trace == old(trace) + [InverseAnswered(proven)] && account == old(account) + [InverseAnswered(proven)]
      ensures proven ==> bindEntered == bindCompleted
      ensures calm ==> proven == (bindEntered ==> bindCompleted)
    {
      assert bindCompleted ==> bindEntered;
      hide Submitting;
      proven := !bindEntered || bindCompleted;
      if proven { proven := Look(RELEASE_RANK); }
      LogInverse(proven);
    }

    ghost method LogInverse(proven: bool)
      requires Submitting(RELEASE_RANK)
      modifies this`trace, this`account
      ensures Submitting(RELEASE_RANK)
      ensures trace == old(trace) + [InverseAnswered(proven)] && account == old(account) + [InverseAnswered(proven)]
    {
      hide Core, Below, TraceOk;
      LogSlot(InverseAnswered(proven));
      QuietStaysBelow(old(trace), trace, RELEASE_RANK);
    }

    lemma MayRelease()
      requires Submitting(RELEASE_RANK) && bindEntered == bindCompleted
      requires resource == AllocatedUnbound || resource == BoundLocal || resource == EnqueueEntered
      ensures MayCall(trace, InverseOp(resource), Lim())
    {
      hide Account, TraceOk, LatchOk, SeenOk, Untouched;
    }

    /** The inverse call itself. */
    method Release() returns (threw: bool)
      requires Submitting(RELEASE_RANK) && bindEntered == bindCompleted
      requires resource == AllocatedUnbound || resource == BoundLocal || resource == EnqueueEntered
      modifies this`control, this`claims, this`foreignFault, this`diagnosis, this`terminal, this`finalPending,
               this`qpc, this`callbackId, this`finishObserved, this`finishTrue, this`trace, this`seenAt, this`account
      ensures Submitting(CLEANUP_RANK) && Worsens(old(diagnosis), diagnosis)
      ensures ControlEvolves(old(control), control) && old(trace) <= trace && (old(terminal) ==> terminal)
      ensures Called(InverseOp(resource)) in trace
      ensures account == old(account) + [Called(InverseOp(resource))] + if threw then [] else [Returned(InverseOp(resource))]
      ensures calm ==> !threw && Rec() == old(Rec()) && SameAnswer()
    {
      hide Core, Account, TraceOk, Below, MayCall;
      var op := InverseOp(resource);
      MayRelease();
      LogSlot(Called(op));
      ghost var called := trace;
      Interruptions();
      threw := *;
      if calm { threw := false; }
      if !threw { LogSlot(Returned(op)); }
      QuietStaysBelow(called, trace, CLEANUP_RANK);
      CallIsIn(old(trace), trace, op);
    }

    /** Runs on every way out of the submission: for an owned resource the gate is asked once, and
        the inverse is called exactly once if proven, and not at all otherwise. */
    method ReleaseOwned() returns (proven: bool, threw: bool)
      requires Submitting(RELEASE_RANK) && !resourceReleaseAttempted && resource != LocalReleased
      modifies this`control, this`claims, this`foreignFault, this`diagnosis, this`terminal, this`finalPending,
               this`qpc, this`callbackId, this`finishObserved, this`finishTrue, this`trace, this`seenAt,
               this`resource, this`resourceReleaseAttempted, this`account
      ensures Submitting(CLEANUP_RANK) && Worsens(old(diagnosis), diagnosis)
      ensures ControlEvolves(old(control), control) && old(trace) <= trace && (old(terminal) ==> terminal)
      ensures old(resource) == NoResource ==>
                !proven && !threw && resource == NoResource && trace == old(trace) && account == old(account)
      ensures proven ==> Called(InverseOp(old(resource))) in trace
      ensures proven ==> account == old(account) + [InverseAnswered(true), Called(InverseOp(old(resource)))]
                                    + if threw then [] else [Returned(InverseOp(old(resource)))]
      ensures proven && !threw ==> resource == LocalReleased
      ensures !proven && old(resource) != NoResource ==>
                && !threw && resource == old(resource) && terminal && diagnosis.restartRequired
                && trace == old(trace) + [InverseAnswered(false)] && account == old(account) + [InverseAnswered(false)]
      ensures threw ==> proven && resource == old(resource)
      ensures calm ==> (proven <==> old(resource) != NoResource && (bindEntered ==> bindCompleted)) && !threw
      ensures calm && proven ==> Rec() == old(Rec()) && SameAnswer()
    {
      hide Submitting, TraceOk, Below, Valid, MayCall, Faulted, Account, Quiet, Core, InverseOp;
      proven, threw := false, false;
      if resource == NoResource {
        SubmittingGrows(RELEASE_RANK, CLEANUP_RANK);
        return;
      }
      proven := Inverse();
      if !proven {
        NoInverse();
        SubmittingGrows(RELEASE_RANK, CLEANUP_RANK);
        return;
      }
      threw := CallInverse();
      assert account == old(account) + [InverseAnswered(true)] + [Called(InverseOp(old(resource)))]
                        + if threw then [] else [Returned(InverseOp(old(resource)))];
    }

    /** The proven inverse: once, and not again if it throws. */
    method CallInverse() returns (threw: bool)
      requires Submitting(RELEASE_RANK) && bindEntered == bindCompleted
      requires resource == AllocatedUnbound || resource == BoundLocal || resource == EnqueueEntered
      modifies this`control, this`claims, this`foreignFault, this`diagnosis, this`terminal, this`finalPending,
               this`qpc, this`callbackId, this`finishObserved, this`finishTrue, this`trace, this`seenAt,
               this`resource, this`resourceReleaseAttempted, this`account
      ensures Submitting(CLEANUP_RANK) && Worsens(old(diagnosis), diagnosis) && resourceReleaseAttempted
      ensures ControlEvolves(old(control), control) && old(trace) <= trace && (old(terminal) ==> terminal)
      ensures Called(InverseOp(old(resource))) in trace
      ensures account == old(account) + [Called(InverseOp(old(resource)))]
                         + if threw then [] else [Returned(InverseOp(old(resource)))]
      ensures resource == if threw then old(resource) else LocalReleased
      ensures calm ==> !threw && Rec() == old(Rec()) && SameAnswer()
    {
      hide Submitting, TraceOk, Below, Valid, MayCall, Account, Quiet, Core, InverseOp;
      AttemptRelease();
      threw := Release();
      if !threw { Hold(CLEANUP_RANK, LocalReleased); }
    }

    method NoInverse()
      requires Submitting(RELEASE_RANK)
      modifies this`diagnosis, this`terminal, this`finalPending
      ensures Submitting(RELEASE_RANK) && Worsens(old(diagnosis), diagnosis) && terminal && diagnosis.restartRequired
    {
      hide Core, TraceOk, Below, Valid, Faulted;
      Fault(InverseUnavailable, NativeUnwind, true);
    }

    method AttemptRelease()
      requires Submitting(RELEASE_RANK)
      modifies this`resourceReleaseAttempted
      ensures Submitting(RELEASE_RANK) && resourceReleaseAttempted
    {
      hide TraceOk, Below, LatchOk, SeenOk, ResourceOk;
      resourceReleaseAttempted := true;
    }

    /** The first half: a slot allocated and bound. Nothing outside is changed yet. */
    method Reserve() returns (v: Verdict)
      requires Submitting(0) && phase == Phase.Qualifying && resource == NoResource && !bindEntered && !bindCompleted
      requires account == []
      modifies this`control, this`claims, this`foreignFault, this`diagnosis, this`terminal, this`finalPending,
               this`qpc, this`callbackId, this`finishObserved, this`finishTrue, this`trace, this`seenAt,
               this`finishKind, this`holder, this`finishSlot, this`resource, this`bindEntered, this`bindCompleted, this`account
      ensures Submitting(4) && Worsens(old(diagnosis), diagnosis) && SameAnswer()
      ensures ControlEvolves(old(control), control) && old(trace) <= trace
      ensures resource == NoResource || resource == AllocatedUnbound || resource == BoundLocal
      ensures account == if resource == NoResource then [] else [Allocated(finishSlot)]
      ensures resource == NoResource ==> !bindEntered
      ensures v.Go? ==> !terminal && resource == BoundLocal && bindCompleted && Returned(BindHolder) in trace
      ensures v != Left
      ensures old(Fine()) ==> v.Go? && Fine()
    {
      hide Core, TraceOk, Below, Leased, MayCall, Valid;
      ghost var n := 2;
      v := Describe();
      if v.Go? {
        v := Allocate();
        n := 3;
      }
      if v.Go? {
        v := Bind();
        n := 4;
      }
      BelowGrows(trace, n, 4);
    }

    /** The second half: the heartbeat retired and cancelled, and the request sent. */
    method Submit() returns (v: Verdict)
      requires Submitting(4) && phase == Phase.Qualifying && Returned(BindHolder) in trace
      requires resource == BoundLocal && bindCompleted && !finishObserved && !finishTrue && finishId == 0
      modifies this`control, this`claims, this`foreignFault, this`diagnosis, this`terminal, this`finalPending,
               this`qpc, this`callbackId, this`finishObserved, this`finishTrue, this`trace, this`seenAt,
               this`bindingSuspended, this`cancelEntered, this`pendingCount, this`phase, this`transitionSequence,
               this`resource, this`enqueueReturned, this`finishId, this`enqueuedAt, this`recipeCompleted
      ensures Submitting(RELEASE_RANK) && Worsens(old(diagnosis), diagnosis)
      ensures ControlEvolves(old(control), control) && old(trace) <= trace
      ensures resource == BoundLocal || resource == EnqueueEntered
      ensures v.Go? ==> phase == Phase.FinishSubmitted && SubmittedOk() && resource == EnqueueEntered
      ensures v.Left? ==> terminal
      ensures v.Refuse? && cancelEntered && !old(cancelEntered) ==> v.restart
      ensures old(Fine()) && old(pendingCount) < PENDING_CAPACITY && old(transitionSequence) != SEQUENCE_MAX ==>
                v.Go? && !terminal
    {
      hide Core, TraceOk, Below, Leased, MayCall, Valid, SubmittedOk;
      ghost var n := 6;
      v := Fill();
      if v.Go? {
        v := CancelHeartbeat();
        n := 7;
      }
      if v.Go? {
        v := Send();
        n := 8;
      }
      BelowGrows(trace, n, RELEASE_RANK);
    }

    /** Reservation and submission, up to whatever stops them. */
    method Attempt() returns (v: Verdict)
      requires Submitting(0) && phase == Phase.Qualifying && !resourceReleaseAttempted
      requires resource == NoResource && account == [] && holder == 0 && !bindEntered && !bindCompleted
      requires !cancelEntered && !finishObserved && !finishTrue && finishId == 0
      modifies this`control, this`claims, this`foreignFault, this`diagnosis, this`terminal, this`finalPending,
               this`qpc, this`callbackId, this`finishObserved, this`finishTrue, this`trace, this`seenAt,
               this`finishKind, this`holder, this`finishSlot, this`bindEntered, this`bindCompleted,
               this`bindingSuspended, this`cancelEntered, this`pendingCount, this`phase, this`transitionSequence,
               this`resource, this`enqueueReturned, this`finishId, this`enqueuedAt, this`recipeCompleted, this`account
      ensures Submitting(RELEASE_RANK) && resource != LocalReleased
      ensures account == if resource == NoResource then [] else [Allocated(finishSlot)]
      ensures ControlEvolves(old(control), control) && old(trace) <= trace
      ensures v.Go? ==> phase == Phase.FinishSubmitted && SubmittedOk() && resource == EnqueueEntered && bindCompleted
      ensures v.Left? ==> terminal
      ensures v.Refuse? && cancelEntered ==> v.restart
      ensures old(Fine()) && old(pendingCount) < PENDING_CAPACITY && old(transitionSequence) != SEQUENCE_MAX ==>
                v.Go? && !terminal
    {
      hide Core, TraceOk, Below, Valid, SubmittedOk, Untouched, StageOk, Submitting;
      v := Reserve();
      if v.Go? {
        v := Submit();
      } else {
        SubmittingGrows(4, RELEASE_RANK);
      }
    }

    /** The one submission of a process. Whatever fails or throws in it, a slot that was taken has
        had its one way out: given back by its inverse if the gate proved that, or else still held
        by an attempt that is terminal and asks for a restart. */
    method SubmitFinish() returns (threw: bool)
      requires Valid() && !recipeEntered && requested && !terminal && phase == Phase.Qualifying
      modifies this
      ensures Valid() && recipeEntered && old(trace) <= trace
      ensures requested && started == old(started) && releases == old(releases) && ControlEvolves(old(control), control)
      ensures finishDeadline == old(finishDeadline) && overallDeadline == old(overallDeadline)
      ensures account == Account(trace) && Accounted() && (resource != NoResource <==> Taken(account))
      ensures Retained(account) ==> terminal && diagnosis.restartRequired
      ensures !terminal ==> phase == Phase.FinishSubmitted
      ensures threw ==> terminal && diagnosis.restartRequired && exceptionObserved
      ensures old(Fine()) && old(pendingCount) < PENDING_CAPACITY && old(transitionSequence) != SEQUENCE_MAX ==>
                && !threw && !terminal && resource == LocalReleased && Called(ReleaseHolder) in trace
    {
      hide Core, TraceOk, Below, Valid, SubmittedOk, Untouched, StageOk;
      OpenIdle();
      hide Submitting;
      EnterRecipe();
      threw := CarryOut();
    }

    /** The recipe and the way out of it. */
    method CarryOut() returns (threw: bool)
      requires Submitting(0) && phase == Phase.Qualifying && !resourceReleaseAttempted && requested
      requires resource == NoResource && account == [] && holder == 0 && !bindEntered && !bindCompleted
      requires !cancelEntered && !finishObserved && !finishTrue && finishId == 0
      modifies this`control, this`claims, this`foreignFault, this`diagnosis, this`terminal, this`finalPending,
               this`qpc, this`callbackId, this`finishObserved, this`finishTrue, this`trace, this`seenAt,
               this`finishKind, this`holder, this`finishSlot, this`bindEntered, this`bindCompleted,
               this`bindingSuspended, this`cancelEntered, this`pendingCount, this`phase, this`transitionSequence,
               this`resource, this`enqueueReturned, this`finishId, this`enqueuedAt, this`recipeCompleted,
               this`exceptionPending, this`exceptionObserved, this`resourceReleaseAttempted, this`account
      ensures Valid() && ControlEvolves(old(control), control) && old(trace) <= trace
      ensures account == Account(trace) && Accounted() && (resource != NoResource <==> Taken(account))
      ensures Retained(account) ==> terminal && diagnosis.restartRequired
      ensures !terminal ==> phase == Phase.FinishSubmitted
      ensures threw ==> terminal && diagnosis.restartRequired && exceptionObserved
      ensures old(Fine()) && old(pendingCount) < PENDING_CAPACITY && old(transitionSequence) != SEQUENCE_MAX ==>
                && !threw && !terminal && resource == LocalReleased && Called(ReleaseHolder) in trace
    {
      hide Core, TraceOk, Below, Valid, SubmittedOk, Untouched, StageOk, Submitting;
      var v := Attempt();
      threw := Conclude(v);
    }

    /** What a verdict leaves in the record: nothing, a fault, or the exception the filter saw. */
    method Resolve(v: Verdict) returns (threw: bool)
      requires Core() && recipeEntered
      requires v.Left? ==> terminal
      requires v.Refuse? && cancelEntered ==> v.restart
      modifies this`diagnosis, this`terminal, this`finalPending,
               this`exceptionPending, this`exceptionObserved, this`recipeCompleted
      ensures Core() && threw == v.Threw?
      ensures v.Go? ==> Rec() == old(Rec()) && recipeCompleted
      ensures !v.Go? ==> terminal
      ensures threw ==> diagnosis.restartRequired && exceptionObserved
      ensures old(diagnosis.restartRequired) ==> diagnosis.restartRequired
    {
      hide Core, Valid, Faulted;
      threw := v.Threw?;
      if v.Refuse? {
        Fault(v.reason, if v.reason == CreateFailed then ClearedCacheNoSession else MechanicsFailed, v.restart);
      } else if v.Threw? {
        ObserveFailure();
      } else if v.Go? {
        recipeCompleted := true;
      }
    }

    /** The way out: first the exception filter or the refusal, then the release. */
    method Conclude(v: Verdict) returns (threw: bool)
      requires Submitting(RELEASE_RANK) && !resourceReleaseAttempted && resource != LocalReleased && requested
      requires account == if resource == NoResource then [] else [Allocated(finishSlot)]
      requires v.Go? ==> phase == Phase.FinishSubmitted && SubmittedOk()
      requires v.Left? ==> terminal
      requires v.Refuse? && cancelEntered ==> v.restart
      modifies this`control, this`claims, this`foreignFault, this`diagnosis, this`terminal, this`finalPending,
               this`qpc, this`callbackId, this`finishObserved, this`finishTrue, this`trace, this`seenAt,
               this`exceptionPending, this`exceptionObserved, this`recipeCompleted,
               this`resource, this`resourceReleaseAttempted, this`account
      ensures Valid()
      ensures account == Account(trace) && Accounted() && old(account) <= account
      ensures resource == LocalReleased ==> |account| == 4 && account[2] == Called(InverseOp(old(resource)))
      ensures Retained(account) ==> resource == old(resource) && terminal && diagnosis.restartRequired
      ensures ControlEvolves(old(control), control) && old(trace) <= trace
      ensures !terminal ==> v.Go?
      ensures threw ==> terminal && diagnosis.restartRequired && exceptionObserved
      ensures v.Threw? ==> threw
      ensures calm && v.Go? && !old(terminal) && old(resource) == EnqueueEntered && bindCompleted ==>
                !threw && !terminal && resource == LocalReleased && Called(ReleaseHolder) in trace
    {
      hide Core, TraceOk, Below, Faulted, Valid, StageOk, Accounted, GivenBack, Retained, Account, Quiet;
      threw := Resolve(v);
      ghost var was := trace;
      var again := Finally();
      threw := threw || again;
      if !terminal { StaysIn(was, trace, Returned(Enqueue)); }
      CloseSubmitted();
      OpenAccount();
    }

    /** The release, and what becomes of an exception in it. */
    method Finally() returns (threw: bool)
      requires Submitting(RELEASE_RANK) && !resourceReleaseAttempted && resource != LocalReleased
      requires account == if resource == NoResource then [] else [Allocated(finishSlot)]
      modifies this`control, this`claims, this`foreignFault, this`diagnosis, this`terminal, this`finalPending,
               this`qpc, this`callbackId, this`finishObserved, this`finishTrue, this`trace, this`seenAt,
               this`exceptionPending, this`exceptionObserved, this`recipeCompleted,
               this`resource, this`resourceReleaseAttempted, this`account
      ensures Submitting(CLEANUP_RANK) && Worsens(old(diagnosis), diagnosis) && (old(terminal) ==> terminal)
      ensures ControlEvolves(old(control), control) && old(trace) <= trace
      ensures Accounted() && old(account) <= account && (old(exceptionObserved) ==> exceptionObserved)
      ensures resource == old(resource) || resource == LocalReleased
      ensures resource == LocalReleased ==>
                && |account| == 4 && account[2] == Called(InverseOp(old(resource))) && account[2] in trace
      ensures Retained(account) <==> resource != NoResource && resource != LocalReleased
      ensures Retained(account) ==> terminal && diagnosis.restartRequired
      ensures threw ==> terminal && diagnosis.restartRequired && exceptionObserved
      ensures calm && old(resource) != NoResource && (bindEntered ==> bindCompleted) ==>
                !threw && resource == LocalReleased && Rec() == old(Rec()) && SameAnswer()
    {
      hide Core, TraceOk, Below, Faulted, Valid, Accounted, GivenBack, Retained, Account, Quiet, Submitting;
      ghost var held := resource;
      var proven;
      proven, threw := ReleaseOwned();
      CloseAccount(held, proven, threw);
      if threw { FailRelease(); }
    }

    method FailRelease()
      requires Submitting(CLEANUP_RANK)
      modifies this`diagnosis, this`terminal, this`finalPending, this`exceptionPending, this`exceptionObserved, this`recipeCompleted
      ensures Submitting(CLEANUP_RANK) && Worsens(old(diagnosis), diagnosis)
      ensures terminal && diagnosis.restartRequired && exceptionObserved
    {
      hide Core, TraceOk, Below;
      ObserveFailure();
    }

    /** What the release leaves in the account. */
    lemma CloseAccount(held: Resource, proven: bool, threw: bool)
      requires held != LocalReleased && (held == NoResource ==> !proven) && (threw ==> proven)
      requires account == if held == NoResource then []
                          else if !proven then [Allocated(finishSlot)] + [InverseAnswered(false)]
                          else [Allocated(finishSlot)] + [InverseAnswered(true), Called(InverseOp(held))]
                               + if threw then [] else [Returned(InverseOp(held))]
      requires resource == if proven && !threw then LocalReleased else held
      ensures Accounted()
      ensures resource == LocalReleased ==> |account| == 4 && account[2] == Called(InverseOp(held))
      ensures Retained(account) <==> held != NoResource && (threw || !proven)
    {
    }

    lemma OpenAccount()
      requires Core()
      ensures account == Account(trace)
    {
      hide Account, TraceOk, Below, LatchOk, SeenOk, Untouched;
    }

    // ---- Rebuilding the session ----

    lemma MayRebuild(op: Op)
      requires Below(trace, Rank(op)) && CLEANUP_RANK <= Rank(op) < FORWARD_RANK
      requires Returned(Previous(op)) in trace && Acknowledged(trace, Lim())
      requires Leased(trace, finishDeadline) && Leased(trace, overallDeadline)
      ensures MayCall(trace, op, Lim())
    {
      hide Below, Leased, Acknowledged;
    }

    /** A native call of the rebuild, and the lease after it. */
    method Rebuild(op: Op, reason: Reason) returns (v: Verdict)
      requires Submitting(Rank(op)) && CLEANUP_RANK <= Rank(op) < FORWARD_RANK
      requires Returned(Previous(op)) in trace && Acknowledged(trace, Lim())
      requires Leased(trace, finishDeadline) && Leased(trace, overallDeadline)
      requires phase == Phase.Recreating
      modifies this`control, this`claims, this`foreignFault, this`diagnosis, this`terminal, this`finalPending,
               this`qpc, this`callbackId, this`finishObserved, this`finishTrue, this`trace, this`seenAt
      ensures Submitting(Rank(op) + 1) && Worsens(old(diagnosis), diagnosis) && SameAnswer()
      ensures ControlEvolves(old(control), control) && old(trace) <= trace
      ensures v.Go? ==> !terminal && Returned(op) in trace && Acknowledged(trace, Lim())
      ensures v.Go? ==> Leased(trace, finishDeadline) && Leased(trace, overallDeadline)
      ensures v == Go || v == Threw || v == Refuse(reason, true)
      ensures old(Fine()) ==> v.Go? && Fine()
    {
      hide Core, TraceOk, Below, Leased, Valid, Acknowledged, MayCall;
      ghost var was := trace;
      MayRebuild(op);
      var threw := Native(op);
      if threw { return Threw; }
      AcknowledgedStays(was, trace, Lim());
      hide Submitting;
      v := Renewed(op, reason);
    }

    /** The lease after such a call. */
    method Renewed(ghost op: Op, reason: Reason) returns (v: Verdict)
      requires Submitting(Rank(op) + 1) && Returned(op) in trace && Acknowledged(trace, Lim())
      modifies this`control, this`claims, this`foreignFault, this`diagnosis, this`terminal, this`finalPending,
               this`trace, this`qpc
      ensures Submitting(Rank(op) + 1) && Worsens(old(diagnosis), diagnosis)
      ensures ControlEvolves(old(control), control) && old(trace) <= trace
      ensures v.Go? ==> !terminal && Returned(op) in trace && Acknowledged(trace, Lim())
      ensures v.Go? ==> Leased(trace, finishDeadline) && Leased(trace, overallDeadline)
      ensures v == Go || v == Refuse(reason, true)
      ensures old(Fine()) ==> v.Go? && Fine()
    {
      hide Submitting, TraceOk, Below, Leased, Valid, Acknowledged;
      var ok := Extend(Rank(op) + 1, op);
      AcknowledgedStays(old(trace), trace, Lim());
      if ok { ok := Look(Rank(op) + 1); }
      return if ok then Go else Refuse(reason, true);
    }

    method Install(id: nat)
      requires Core() && recipeEntered && id != 0
      modifies this`createInstalled, this`createId
      ensures Core() && createInstalled && createId == id
    {
      hide TraceOk, Below, LatchOk, SeenOk, ResourceOk;
      createInstalled, createId := true, id;
    }

    /** Puts the guard into the created task's callback cell. After an ambiguous write nothing is
        put back: the attempt fails and the process must be restarted. */
    method InstallCreateGuard() returns (installed: bool)
      requires Submitting(FORWARD_RANK) && phase == Phase.Recreating && Returned(Create) in trace && !terminal
      modifies this`control, this`claims, this`foreignFault, this`diagnosis, this`terminal, this`finalPending,
               this`qpc, this`trace, this`createInstalled, this`createId
      ensures Core() && Worsens(old(diagnosis), diagnosis) && ControlEvolves(old(control), control)
      ensures Quiet(old(trace), trace)
      ensures installed <==> createInstalled
      ensures installed ==> !terminal && createId != 0
      ensures old(Fine()) ==> installed
    {
      hide Core, TraceOk, Below, Leased, Valid, MayCall, Quiet;
      NothingIsQuiet(trace);
      installed := Check();
      if !installed { return; }
      var written: bool := *;
      if calm { written := true; }
      if !written { return false; }
      installed := Lease(false);
      if !installed { return; }
      installed := Check();
      if !installed { return; }
      var id: nat := *;
      if id == 0 { id := 1; }
      Install(id);
    }

    /** Cleanup, start, create and guard, uninterrupted, on the visit after the acknowledgement. */
    method RebuildSession() returns (v: Verdict)
      requires Submitting(CLEANUP_RANK) && phase == Phase.FinishAccepted
      requires Returned(Enqueue) in trace && Acknowledged(trace, Lim())
      modifies this`control, this`claims, this`foreignFault, this`diagnosis, this`terminal, this`finalPending,
               this`qpc, this`callbackId, this`finishObserved, this`finishTrue, this`trace, this`seenAt,
               this`pendingCount, this`phase, this`transitionSequence, this`createInstalled, this`createId
      ensures Core() && Worsens(old(diagnosis), diagnosis) && ControlEvolves(old(control), control) && old(trace) <= trace
      ensures Below(trace, FORWARD_RANK)
      ensures v.Go? ==> phase == Phase.Recreating && createInstalled && Returned(Create) in trace && !terminal
      ensures v.Left? ==> terminal
      ensures v.Refuse? ==> v.restart
      ensures old(Fine()) && old(pendingCount) < PENDING_CAPACITY && old(transitionSequence) != SEQUENCE_MAX ==> v.Go?
    {
      hide Core, TraceOk, Below, Leased, Valid, MayCall, Acknowledged;
      v := RebuildCalls();
      if v.Go? { v := GuardCreate(); }
    }

    /** The three calls of the rebuild. */
    method RebuildCalls() returns (v: Verdict)
      requires Submitting(CLEANUP_RANK) && phase == Phase.FinishAccepted
      requires Returned(Enqueue) in trace && Acknowledged(trace, Lim())
      modifies this`control, this`claims, this`foreignFault, this`diagnosis, this`terminal, this`finalPending,
               this`qpc, this`callbackId, this`finishObserved, this`finishTrue, this`trace, this`seenAt,
               this`pendingCount, this`phase, this`transitionSequence
      ensures Submitting(FORWARD_RANK) && Worsens(old(diagnosis), diagnosis)
      ensures ControlEvolves(old(control), control) && old(trace) <= trace
      ensures v.Go? ==> phase == Phase.Recreating && Returned(Create) in trace && !terminal
      ensures v.Left? ==> terminal
      ensures v.Refuse? ==> v.restart
      ensures old(Fine()) && old(pendingCount) < PENDING_CAPACITY && old(transitionSequence) != SEQUENCE_MAX ==>
                v.Go? && Fine()
    {
      hide Submitting, TraceOk, Below, Leased, Valid, MayCall, Acknowledged;
      v := OpenRebuild();
      if v.Go? {
        v := CallRebuild();
      } else {
        SubmittingGrows(CLEANUP_RANK, FORWARD_RANK);
      }
    }

    method CallRebuild() returns (v: Verdict)
      requires Submitting(CLEANUP_RANK) && phase == Phase.Recreating
      requires Returned(Enqueue) in trace && Acknowledged(trace, Lim())
      requires Leased(trace, finishDeadline) && Leased(trace, overallDeadline)
      modifies this`control, this`claims, this`foreignFault, this`diagnosis, this`terminal, this`finalPending,
               this`qpc, this`callbackId, this`finishObserved, this`finishTrue, this`trace, this`seenAt
      ensures Submitting(FORWARD_RANK) && Worsens(old(diagnosis), diagnosis)
      ensures ControlEvolves(old(control), control) && old(trace) <= trace
      ensures v.Go? ==> Returned(Create) in trace && !terminal
      ensures v != Left && (v.Refuse? ==> v.restart)
      ensures old(Fine()) ==> v.Go? && Fine()
    {
      hide Submitting, TraceOk, Below, Leased, Valid, MayCall, Acknowledged;
      ghost var n := 10;
      v := Rebuild(Cleanup, LifecycleChanged);
      if v.Go? {
        v := Rebuild(Start, CreateFailed);
        n := 11;
      }
      if v.Go? {
        v := Rebuild(Create, CreateFailed);
        n := 12;
      }
      SubmittingGrows(n, FORWARD_RANK);
    }

    method GuardCreate() returns (v: Verdict)
      requires Submitting(FORWARD_RANK) && phase == Phase.Recreating && Returned(Create) in trace && !terminal
      modifies this`control, this`claims, this`foreignFault, this`diagnosis, this`terminal, this`finalPending,
               this`qpc, this`trace, this`createInstalled, this`createId
      ensures Core() && Worsens(old(diagnosis), diagnosis) && ControlEvolves(old(control), control)
      ensures old(trace) <= trace && Below(trace, FORWARD_RANK) && Returned(Create) in trace
      ensures v == Go || v == Refuse(CreateFailed, true)
      ensures v.Go? ==> createInstalled && !terminal
      ensures old(Fine()) ==> v.Go?
    {
      hide Core, TraceOk, Below, Leased, Valid, MayCall, Worsens, ControlEvolves;
      var installed := InstallCreateGuard();
      QuietStaysBelow(old(trace), trace, FORWARD_RANK);
      QuietKeeps(old(trace), trace, Returned(Create));
      v := if installed then Go else Refuse(CreateFailed, true);
    }

    method OpenRebuild() returns (v: Verdict)
      requires Submitting(CLEANUP_RANK) && phase == Phase.FinishAccepted
      requires Returned(Enqueue) in trace && Acknowledged(trace, Lim())
      modifies this`control, this`claims, this`foreignFault, this`diagnosis, this`terminal, this`finalPending,
               this`qpc, this`trace, this`callbackId, this`pendingCount, this`phase, this`transitionSequence
      ensures Submitting(CLEANUP_RANK) && Worsens(old(diagnosis), diagnosis) && ControlEvolves(old(control), control) && old(trace) <= trace
      ensures v.Go? ==>
                && phase == Phase.Recreating && !terminal && Returned(Enqueue) in trace && Acknowledged(trace, Lim())
                && Leased(trace, finishDeadline) && Leased(trace, overallDeadline)
      ensures v.Left? ==> terminal
      ensures v == Go || v == Left || v == Refuse(RequestPoolUnavailable, true)
      ensures old(Fine()) && old(pendingCount) < PENDING_CAPACITY && old(transitionSequence) != SEQUENCE_MAX ==>
                v.Go? && Fine()
    {
      hide Core, TraceOk, Below, Leased, Valid, MayCall, Acknowledged, Submitting;
      var ok := Extend(CLEANUP_RANK, Enqueue);
      AcknowledgedStays(old(trace), trace, Lim());
      if ok { ok := Look(CLEANUP_RANK); }
      if !ok { return Refuse(RequestPoolUnavailable, true); }
      ForgetRequest();
      ok := MoveOn(CLEANUP_RANK, Phase.Recreating);
      return if ok then Go else Left;
    }

    /** A transition on the main line. */
    method MoveOn(ghost n: nat, next: Phase) returns (ok: bool)
      requires Submitting(n) && (next == Phase.FinishSubmitted ==> !finishTrue)
      modifies this`diagnosis, this`terminal, this`finalPending, this`pendingCount,
               this`phase, this`qpc, this`transitionSequence
      ensures Submitting(n) && Worsens(old(diagnosis), diagnosis)
      ensures ok ==> Rec() == old(Rec()) && phase == next && (old(phase) != next ==> qpc == old(qpc))
      ensures !ok ==> terminal
      ensures old(pendingCount) < PENDING_CAPACITY && old(transitionSequence) != SEQUENCE_MAX ==> ok
    {
      hide Core, TraceOk, Below, Valid;
      ok := Transition(next, qpc);
    }

    method ForgetRequest()
      requires Submitting(CLEANUP_RANK) && phase != Phase.FinishSubmitted
      modifies this`callbackId
      ensures Submitting(CLEANUP_RANK) && callbackId == 0
    {
      hide TraceOk, Below, LatchOk, ResourceOk, Untouched;
      callbackId := 0;
    }

    method Recreate() returns (threw: bool)
      requires Valid() && phase == Phase.FinishAccepted && !terminal && Acknowledged(trace, Lim())
      modifies this`control, this`claims, this`foreignFault, this`diagnosis, this`terminal, this`finalPending,
               this`qpc, this`callbackId, this`finishObserved, this`finishTrue, this`trace, this`seenAt,
               this`pendingCount, this`phase, this`transitionSequence, this`createInstalled, this`createId,
               this`exceptionPending, this`exceptionObserved, this`recipeCompleted
      ensures Valid() && ControlEvolves(old(control), control) && old(trace) <= trace
      ensures old(diagnosis.restartRequired) ==> diagnosis.restartRequired
      ensures !terminal ==> phase == Phase.Recreating && !threw && recipeCompleted
      ensures threw ==> diagnosis.restartRequired && exceptionObserved
      ensures old(Fine()) && old(pendingCount) < PENDING_CAPACITY && old(transitionSequence) != SEQUENCE_MAX ==>
                !terminal && !threw
    {
      hide Core, TraceOk, Below, Leased, MayCall, Acknowledged, SubmittedOk, Valid, StageOk;
      OpenAccepted();
      hide Submitting;
      recipeCompleted := false;
      var v := RebuildSession();
      threw := Resolve(v);
      CloseRecreating();
    }

    // ---- The Create callback ----

    method EnterCallback(id: nat)
      requires Valid() && createInstalled && phase != Phase.FinishSubmitted
      modifies this`callbackDepth, this`callbackId
      ensures Core() && callbackDepth == 1 && callbackId == id
    {
      hide TraceOk, Below, LatchOk, ResourceOk;
      assert recipeEntered;
      callbackDepth, callbackId := 1, id;
    }

    method BeginForward()
      requires Core() && createInstalled
      modifies this`createForwarded, this`recipeCompleted
      ensures Core() && createForwarded
    {
      hide TraceOk, Below, LatchOk, ResourceOk, SeenOk;
      assert recipeEntered;
      createForwarded, recipeCompleted := true, false;
    }

    method EndForward(returned: bool)
      requires Core() && createInstalled && createForwarded
      modifies this`createReturned, this`recipeCompleted
      ensures Core() && createReturned == returned
    {
      hide TraceOk, Below, LatchOk, ResourceOk, SeenOk;
      assert recipeEntered;
      createReturned := returned;
      if returned { recipeCompleted := true; }
    }

    /** The native success callback, forwarded once. */
    method Forward() returns (threw: bool)
      requires Core() && recipeEntered && createInstalled && callbackDepth == 1 && phase == Phase.Recreating
      requires !createForwarded && Below(trace, FORWARD_RANK) && Returned(Create) in trace && Leased(trace, overallDeadline)
      modifies this`control, this`claims, this`foreignFault, this`diagnosis, this`terminal, this`finalPending,
               this`qpc, this`callbackId, this`finishObserved, this`finishTrue, this`trace, this`seenAt,
               this`createForwarded, this`createReturned, this`recipeCompleted
      ensures Core() && Worsens(old(diagnosis), diagnosis) && ControlEvolves(old(control), control)
      ensures old(trace) <= trace && createForwarded && createReturned == !threw && (old(terminal) ==> terminal)
      ensures Called(CreateForward) in trace && SameAnswer()
      ensures calm ==> !threw && Rec() == old(Rec())
    {
      hide Core, TraceOk, Below, Leased, Valid, Worsens, ControlEvolves;
      assert MayCall(trace, CreateForward, Lim());
      hide MayCall;
      BeginForward();
      threw := Native(CreateForward);
      CallIsIn(old(trace), trace, CreateForward);
      EndForward(!threw);
    }

    /** The checks of the guard, in order; the lease is one of them. */
    method Examine() returns (safe: bool)
      requires Core() && createInstalled
      modifies this`control, this`claims, this`foreignFault, this`diagnosis, this`terminal, this`finalPending,
               this`qpc, this`trace
      ensures Core() && Worsens(old(diagnosis), diagnosis) && ControlEvolves(old(control), control)
      ensures Quiet(old(trace), trace) && (old(terminal) ==> terminal)
      ensures safe ==> !terminal && Leased(trace, overallDeadline)
      ensures calm && !old(terminal) && clock < overallDeadline ==> safe
    {
      hide Core, TraceOk, Below, Leased, Quiet;
      NothingIsQuiet(trace);
      safe := Check();
      if safe { safe := Lease(false); }
      if safe { safe := Check(); }
    }

    /** The engine reports the created session. It is attributed, examined and forwarded at most
        once; anything else is a fault, and an exception is observed on its way through. */
    method CreateSuccess(owner: bool, id: nat) returns (threw: bool)
      requires Valid()
      modifies this`control, this`claims, this`foreignFault, this`diagnosis, this`terminal, this`finalPending,
               this`qpc, this`callbackId, this`finishObserved, this`finishTrue, this`trace, this`seenAt,
               this`createForwarded, this`createReturned, this`recipeCompleted, this`callbackDepth,
               this`exceptionPending, this`exceptionObserved
      ensures Valid() && ControlEvolves(old(control), control) && old(trace) <= trace
      ensures (old(terminal) ==> terminal) && (old(diagnosis.restartRequired) ==> diagnosis.restartRequired)
      ensures threw ==> terminal && diagnosis.restartRequired && exceptionObserved
      ensures (old(createForwarded) ==> createForwarded) && (createForwarded && !old(createForwarded) ==> Called(CreateForward) in trace)
      ensures !createInstalled || old(phase) != Phase.Recreating ==> trace == old(trace) && Rec() == old(Rec())
      ensures calm && owner && phase == Phase.Recreating && createInstalled && id == createId && id != 0 && !old(terminal)
              && !old(createForwarded) && clock < overallDeadline
              ==> createReturned && !terminal
    {
      hide Core, TraceOk, Below, MayCall, Leased, Faulted;
      threw := false;
      var enter := CreateEntry(owner, id);
      if !enter { return; }
      assert Returned(Create) in trace && recipeEntered && (!createForwarded ==> Below(trace, FORWARD_RANK));
      EnterCallback(id);
      hide Valid;
      threw := Guarded();
      LeaveCallback();
    }

    /** What happens inside the guard, in the callback it was entered for. */
    method Guarded() returns (threw: bool)
      requires Core() && recipeEntered && createInstalled && callbackDepth == 1 && phase == Phase.Recreating
      requires Returned(Create) in trace && (!createForwarded ==> Below(trace, FORWARD_RANK))
      modifies this`control, this`claims, this`foreignFault, this`diagnosis, this`terminal, this`finalPending,
               this`qpc, this`callbackId, this`finishObserved, this`finishTrue, this`trace, this`seenAt,
               this`createForwarded, this`createReturned, this`recipeCompleted,
               this`exceptionPending, this`exceptionObserved
      ensures Core() && ControlEvolves(old(control), control) && old(trace) <= trace
      ensures (old(diagnosis.restartRequired) ==> diagnosis.restartRequired) && (old(terminal) ==> terminal)
      ensures !terminal ==> createForwarded && createReturned && Returned(Create) in trace
      ensures threw ==> terminal && diagnosis.restartRequired && exceptionObserved
      ensures (old(createForwarded) ==> createForwarded) && (createForwarded && !old(createForwarded) ==> Called(CreateForward) in trace)
      ensures calm && !old(terminal) && !old(createForwarded) && clock < overallDeadline ==> createReturned && !terminal
    {
      hide Core, TraceOk, Below, MayCall, Leased, Faulted, Valid;
      threw := false;
      var safe := Examine();
      QuietKeeps(old(trace), trace, Returned(Create));
      if !safe || createForwarded {
        Fault(CallbackInvalid, MechanicsFailed, true);
        return;
      }
      QuietStaysBelow(old(trace), trace, FORWARD_RANK);
      ghost var was := trace;
      threw := Forward();
      StaysIn(was, trace, Returned(Create));
      if threw { ObserveFailure(); }
    }

    method LeaveCallback()
      requires Core() && recipeEntered && createInstalled && callbackDepth == 1 && phase == Phase.Recreating
      requires !terminal ==> createForwarded && createReturned && Returned(Create) in trace
      requires resource == NoResource || resource == LocalReleased || (terminal && diagnosis.restartRequired)
      requires Accounted()
      modifies this`callbackDepth
      ensures Valid()
    {
      hide TraceOk, Below, LatchOk, ResourceOk, SeenOk;
      callbackDepth := 0;
    }

    // ---- Records, terminal states and retry ----

    /** Publishing the public value; its loss is a fault of its own. */
    method Publish() returns (ok: bool)
      requires Core()
      modifies this`diagnosis, this`terminal, this`finalPending
      ensures Core() && (old(Valid()) ==> Valid()) && Worsens(old(diagnosis), diagnosis)
      ensures old(terminal) || ok ==> terminal == old(terminal)
      ensures ok ==> Rec() == old(Rec())
      ensures !ok ==> terminal
      ensures calm ==> ok
    {
      hide Core, Valid, Faulted;
      ok := *;
      if calm { ok := true; }
      if !ok { Fault(RecordingUnavailable, RecordingLost, cancelEntered); }
    }

    method Drain()
      requires Core()
      modifies this`pendingCount
      ensures Core() && pendingCount == 0 && (old(Valid()) ==> Valid())
    {
      hide TraceOk, Untouched, LatchOk, ResourceOk, SeenOk, StageOk;
      pendingCount := 0;
    }

    /** Emits the queued records and publishes, or stops on the way. */
    method Flush() returns (ok: bool)
      requires Core()
      modifies this`diagnosis, this`terminal, this`finalPending, this`pendingCount
      ensures Core() && (old(Valid()) ==> Valid()) && Worsens(old(diagnosis), diagnosis)
      ensures (old(terminal) ==> terminal) && pendingCount <= old(pendingCount)
      ensures ok ==> Rec() == old(Rec()) && pendingCount == 0
      ensures calm ==> ok
    {
      hide Core, Valid;
      ok := *;
      if calm { ok := true; }
      if ok {
        Drain();
        ok := Publish();
      }
    }

    /** A rejection that preceded everything native, for a reason a new request may not meet. */
    predicate RetryablePreflight()
      reads this`recipeEntered, this`cancelEntered, this`bindEntered, this`bindCompleted, this`createInstalled,
            this`callbackDepth, this`holder, this`staged, this`resource, this`exceptionObserved, this`foreignFault,
            this`diagnosis, this`published, this`terminal, this`phase, this`operationSequence, this`transitionSequence
    {
      && schema == 2
      && !recipeEntered && !cancelEntered && !bindEntered && !bindCompleted && !createInstalled
      && callbackDepth == 0 && holder == 0 && !staged && resource == NoResource && !exceptionObserved
      && !foreignFault && !diagnosis.restartRequired && !published
      && terminal && phase == Phase.Rejected
      && (diagnosis.outcome == MechanicsFailed || diagnosis.outcome == RecordingLost)
      && 0 < operationSequence != SEQUENCE_MAX && transitionSequence != SEQUENCE_MAX
      && diagnosis.reason != InvalidRequest && diagnosis.reason != ClockFault
    }

    /** Of its native half everything follows from not having entered the recipe. */
    lemma RetryMeansUntouched()
      requires Core()
      ensures !recipeEntered ==> Below(trace, 0)
      ensures RetryablePreflight() <==>
                && schema == 2 && !recipeEntered && !foreignFault && !diagnosis.restartRequired
                && terminal && phase == Phase.Rejected
                && (diagnosis.outcome == MechanicsFailed || diagnosis.outcome == RecordingLost)
                && 0 < operationSequence != SEQUENCE_MAX && transitionSequence != SEQUENCE_MAX
                && diagnosis.reason != InvalidRequest && diagnosis.reason != ClockFault
    {
    }

    /** The owner gives a claim back, unless the worker has stopped or changed its verdict. */
    method ReleasePreflightClaim() returns (released: bool)
      requires Core() && terminal && !recipeEntered && requested
      modifies this`control, this`claims, this`foreignFault, this`releases
      ensures Core() && (old(Valid()) ==> Valid()) && (old(foreignFault) ==> foreignFault)
      ensures released ==>
                && schema == 2 && enabled && !old(control.stopped) && old(control.ready)
                && releases == old(releases) + 1 && started <= releases
      ensures !released ==> releases == old(releases) && ControlEvolves(old(control), control)
      ensures calm ==>
                && foreignFault == old(foreignFault)
                && (released <==> schema == 2 && enabled && !control.stopped && control.ready && old(control.latched) != NoOrigin)
                && control == if released then old(control).(latched := NoOrigin) else old(control)
    {
      hide Core, Valid;
      OthersAct();
      if schema != 2 || !enabled || control.stopped || !control.ready { return false; }
      var origin := control.latched;
      OthersAct();
      released := origin != NoOrigin && control.latched == origin;
      if released { GiveBack(); }
    }

    method GiveBack()
      requires Core() && terminal && !recipeEntered && requested && control.latched != NoOrigin
      modifies this`control, this`releases
      ensures Core() && (old(Valid()) ==> Valid()) && control == old(control).(latched := NoOrigin)
      ensures releases == old(releases) + 1 && started <= releases
    {
      hide TraceOk, Untouched, ResourceOk, SeenOk, StageOk;
      control := control.(latched := NoOrigin);
      releases := releases + 1;
    }

    method OthersAct()
      requires Core() && terminal
      modifies this`control, this`claims, this`foreignFault
      ensures Core() && (old(Valid()) ==> Valid()) && (old(foreignFault) ==> foreignFault)
      ensures ControlEvolves(old(control), control)
      ensures calm ==> control == old(control) && foreignFault == old(foreignFault)
    {
      hide TraceOk, Untouched, ResourceOk, SeenOk, StageOk;
      Others();
    }

    /** The offer of a retry, made after the claim was given back. */
    method Offer()
      requires Core() && terminal && requested && !recipeEntered && started <= releases
      modifies this`diagnosis
      ensures Core() && (old(Valid()) ==> Valid()) && diagnosis == old(diagnosis).(retryable := true)
    {
      hide TraceOk, Untouched, ResourceOk, SeenOk, StageOk;
      diagnosis := diagnosis.(retryable := true);
    }

    /** A terminal attempt's phase: what it can still claim, or what it left behind. */
    function TerminalPhase(): Phase
      reads this`published, this`diagnosis, this`cancelEntered
    {
      if published && !diagnosis.restartRequired then Phase.Observed
      else if cancelEntered || diagnosis.restartRequired then Phase.Failed
      else Phase.Rejected
    }

    /** The records a terminal attempt still owes. */
    method Report(now: nat)
      requires Valid() && terminal
      modifies this`diagnosis, this`terminal, this`finalPending, this`pendingCount,
               this`phase, this`qpc, this`transitionSequence, this`exceptionPending
      ensures Valid() && Core() && terminal && Worsens(old(diagnosis), diagnosis)
      ensures calm && old(pendingCount) + 3 <= PENDING_CAPACITY && old(transitionSequence) != SEQUENCE_MAX ==>
                && diagnosis == old(diagnosis) && phase == TerminalPhase()
                && transitionSequence <= old(transitionSequence) + 1
    {
      hide Core, Valid, Faulted, TerminalPhase;
      EnterReport(now);
      var ok;
      var admitted: bool := *;
      if exceptionPending && (calm || admitted) {
        ok := Queue();
        exceptionPending := false;
      }
      if finalPending {
        ok := Queue();
        finalPending := false;
      }
    }

    method EnterReport(now: nat)
      requires Valid() && terminal
      modifies this`diagnosis, this`terminal, this`finalPending, this`pendingCount, this`phase, this`qpc, this`transitionSequence
      ensures Valid() && Core() && terminal && Worsens(old(diagnosis), diagnosis)
      ensures old(pendingCount) <= pendingCount <= old(pendingCount) + 1
      ensures old(pendingCount) < PENDING_CAPACITY && old(transitionSequence) != SEQUENCE_MAX ==>
                && diagnosis == old(diagnosis) && phase == TerminalPhase()
                && transitionSequence <= old(transitionSequence) + 1
    {
      hide Core, Faulted, StageOk;
      Opening();
      TerminalIsNoRecipe();
      var _ := Transition(TerminalPhase(), now);
    }

    lemma TerminalIsNoRecipe()
      ensures !InRecipe(TerminalPhase())
    {
    }

    /** Emits what is owed; a revoked runtime drops it. */
    method Emit() returns (flushed: bool)
      requires Valid() && terminal
      modifies this`diagnosis, this`terminal, this`finalPending, this`pendingCount
      ensures Valid() && terminal && Worsens(old(diagnosis), diagnosis)
      ensures flushed ==> Rec() == old(Rec())
      ensures calm ==> flushed
    {
      assert Core();
      hide Core, Valid;
      flushed := Flush();
      if !flushed {
        var revoked: bool := *;
        if revoked { Drain(); }
        var _ := Publish();
      }
    }

    /** Gives the claim back if the rejection can be retried. */
    method OfferRetry() returns (offered: bool)
      requires Valid() && terminal && requested
      modifies this`diagnosis, this`terminal, this`finalPending, this`control, this`claims, this`foreignFault, this`releases
      ensures Valid() && terminal
      ensures old(diagnosis.restartRequired) ==> diagnosis.restartRequired
      ensures offered ==> old(RetryablePreflight()) && releases == old(releases) + 1
      ensures !offered ==> releases == old(releases) && ControlEvolves(old(control), control)
      ensures calm ==>
                (offered <==>
                  && old(RetryablePreflight()) && enabled && !old(control.stopped) && old(control.ready)
                  && old(control.latched) != NoOrigin)
      ensures calm && offered ==> diagnosis == old(diagnosis).(retryable := true) && control.latched == NoOrigin
    {
      assert Core();
      hide Core, Valid;
      if !RetryablePreflight() { return false; }
      offered := ReleasePreflightClaim();
      if offered {
        Offer();
        var _ := Publish();
      }
    }

    /** A terminal attempt, not yet reported, that a calm world lets be retried. */
    predicate Retriable()
      reads this
    {
      && schema == 2 && enabled && control.latched != NoOrigin && !control.stopped && control.ready
      && !recipeEntered && !foreignFault && !diagnosis.restartRequired
      && (diagnosis.outcome == MechanicsFailed || diagnosis.outcome == RecordingLost)
      && diagnosis.reason != InvalidRequest && diagnosis.reason != ClockFault
      && 0 < operationSequence != SEQUENCE_MAX
      && transitionSequence + 1 < SEQUENCE_MAX && pendingCount + 3 <= PENDING_CAPACITY
    }

    /** Reports the end of an attempt and, if nothing native ever happened, offers the retry. */
    method FinishTerminal(now: nat)
      requires Valid() && terminal && requested
      modifies this`diagnosis, this`terminal, this`finalPending, this`pendingCount,
               this`phase, this`qpc, this`transitionSequence, this`exceptionPending,
               this`bindingSuspended, this`control, this`claims, this`foreignFault, this`releases
      ensures Valid() && terminal
      ensures old(diagnosis.restartRequired) ==> diagnosis.restartRequired
      ensures recipeEntered ==> releases == old(releases) && ControlEvolves(old(control), control)
      ensures releases == old(releases) || (releases == old(releases) + 1 && !recipeEntered)
      ensures calm && old(Retriable()) ==> diagnosis.retryable && control.latched == NoOrigin && phase == Phase.Rejected
    {
      assert !recipeEntered ==> Untouched();
      hide Core, Valid, RetryablePreflight;
      Report(now);
      RetryMeansUntouched();
      CloseOut();
    }

    /** What follows the last record: emission, the ordinary binding, and the retry. */
    method CloseOut()
      requires Valid() && terminal && requested
      modifies this`diagnosis, this`terminal, this`finalPending, this`pendingCount,
               this`bindingSuspended, this`control, this`claims, this`foreignFault, this`releases
      ensures Valid() && terminal
      ensures old(diagnosis.restartRequired) ==> diagnosis.restartRequired
      ensures recipeEntered ==> releases == old(releases) && ControlEvolves(old(control), control)
      ensures releases == old(releases) || (releases == old(releases) + 1 && !recipeEntered)
      ensures calm && old(RetryablePreflight()) && enabled && !old(control.stopped) && old(control.ready)
              && old(control.latched) != NoOrigin
              ==> diagnosis.retryable && control.latched == NoOrigin
    {
      hide Core, Valid;
      var ready := Resume();
      if ready {
        var _ := OfferRetry();
      }
    }

    /** Only a clean end before the cancellation may resume ordinary binding. */
    method FreeBinding()
      modifies this`bindingSuspended, this`control, this`claims, this`foreignFault
      ensures (old(Core()) ==> Core()) && (old(Valid()) ==> Valid())
      ensures ControlEvolves(old(control), control) && (old(foreignFault) ==> foreignFault)
      ensures cancelEntered || diagnosis.restartRequired ==> bindingSuspended == old(bindingSuspended)
      ensures calm ==> control == old(control) && foreignFault == old(foreignFault)
      ensures calm && !cancelEntered && !diagnosis.restartRequired ==> !bindingSuspended
    {
      hide Core, Valid;
      var free := Check();
      if free && !cancelEntered && !diagnosis.restartRequired { bindingSuspended := false; }
    }

    /** Emits what is owed and, if nothing was cancelled, lets ordinary binding go on. */
    method Resume() returns (ready: bool)
      requires Valid() && terminal
      modifies this`diagnosis, this`terminal, this`finalPending, this`pendingCount,
               this`bindingSuspended, this`control, this`claims, this`foreignFault
      ensures Valid() && terminal && Worsens(old(diagnosis), diagnosis)
      ensures ControlEvolves(old(control), control)
      ensures calm ==> Rec() == old(Rec()) && control == old(control) && foreignFault == old(foreignFault)
      ensures calm && !cancelEntered && !diagnosis.restartRequired ==> ready
    {
      hide Core, Valid;
      var flushed := Emit();
      FreeBinding();
      var admitted := Check();
      ready := flushed && admitted && !bindingSuspended;
    }

    // ---- Owner visits ----

    /** What no visit and no callback ever undoes once a recipe was entered. */
    twostate predicate Kept()
      reads this
    {
      && old(trace) <= trace
      && (old(recipeEntered) ==>
            && recipeEntered && started == old(started) && releases == old(releases)
            && control.latched == old(control.latched)
            && account == old(account) && resource == old(resource)
            && finishDeadline == old(finishDeadline) && overallDeadline == old(overallDeadline)
            && (old(terminal) ==> terminal)
            && (old(diagnosis.restartRequired) ==> diagnosis.restartRequired))
    }

    /** The latch names a requester whose request may be taken up. */
    predicate LatchedOk()
      reads this`control
    {
      identityOk && (control.latched == Pipe || (control.latched == Console && consoleWanted && control.consoleAvailable && schema == 2))
    }

    /** A retryable rejection is forgotten for a new request; nothing native is there to clean up. */
    method Reset()
      requires Valid() && terminal && diagnosis.retryable
      modifies this`diagnosis, this`phase, this`published, this`exceptionObserved, this`coherent, this`recipeCompleted,
               this`staged, this`qpc, this`finishDeadline, this`overallDeadline, this`requested, this`terminal, this`finalPending
      ensures Valid() && !recipeEntered && !requested && !terminal && phase == Phase.Armed && diagnosis == NO_DIAGNOSIS
      ensures operationSequence == old(operationSequence) && started <= releases
    {
      hide Core, Valid;
      ClearDeadlines();
      ClearFlags();
      qpc := 0;
      Reopen();
    }

    method ClearDeadlines()
      requires Valid() && terminal && diagnosis.retryable
      modifies this`finishDeadline, this`overallDeadline
      ensures Valid()
    {
      assert !recipeEntered;
      NoCallsIsOk(trace, Limits(0, 0));
      hide TraceOk, Below, LatchOk, ResourceOk, StageOk, Untouched;
      finishDeadline, overallDeadline := 0, 0;
    }

    /** A rejection that never entered the recipe has none of the first three. */
    method ClearFlags()
      requires Valid() && terminal && diagnosis.retryable
      modifies this`published, this`exceptionObserved, this`staged, this`coherent, this`recipeCompleted
      ensures Valid()
    {
      hide Core, Valid, StageOk;
      Opening();
      OpenIdle();
      published, exceptionObserved, staged, coherent, recipeCompleted := false, false, false, false, false;
    }

    method Reopen()
      requires Valid() && terminal && diagnosis.retryable
      modifies this`diagnosis, this`phase, this`requested, this`terminal, this`finalPending
      ensures Valid() && !recipeEntered && !requested && !terminal && phase == Phase.Armed && diagnosis == NO_DIAGNOSIS
      ensures started <= releases
    {
      assert !recipeEntered && Untouched();
      hide TraceOk, Below, ResourceOk, Untouched;
      diagnosis, phase := NO_DIAGNOSIS, Phase.Armed;
      requested, terminal, finalPending := false, false, false;
    }

    method Take()
      requires Valid() && !requested && control.latched != NoOrigin
      modifies this`requested, this`started
      ensures Valid() && requested && started == old(started) + 1 && !recipeEntered
    {
      hide TraceOk, Below;
      requested, started := true, started + 1;
    }

    method Miss()
      requires Valid() && !requested
      modifies this`requested, this`diagnosis, this`terminal, this`finalPending
      ensures Valid() && requested && terminal && !recipeEntered
      ensures !old(terminal) ==> diagnosis.reason == InvalidRequest
    {
      hide Core, Valid;
      Opening();
      Fault(InvalidRequest, MechanicsFailed, false);
      Note();
    }

    method Note()
      requires Valid() && !requested && terminal
      modifies this`requested
      ensures Valid() && requested
    {
      hide TraceOk, Below;
      requested := true;
    }

    method SetDeadlines(now: nat)
      requires Valid() && !recipeEntered
      modifies this`finishDeadline, this`overallDeadline
      ensures Valid()
      ensures finishDeadline == now + frequency * FINISH_SECONDS && overallDeadline == now + frequency * ATTEMPT_SECONDS
    {
      var finish, overall := now + frequency * FINISH_SECONDS, now + frequency * ATTEMPT_SECONDS;
      NoCallsIsOk(trace, Limits(finish, overall));
      hide TraceOk, Below;
      finishDeadline, overallDeadline := finish, overall;
    }

    /** Takes up the latched request: one per claim, and none that the clock cannot hold. */
    method Begin(now: nat)
      requires Valid() && !requested
      modifies this`requested, this`started, this`diagnosis, this`terminal, this`finalPending, this`operationSequence,
               this`finishDeadline, this`overallDeadline, this`pendingCount, this`phase, this`qpc, this`transitionSequence
      ensures Valid() && requested && !recipeEntered
      ensures started == old(started) + if old(LatchedOk()) then 1 else 0
      ensures !old(LatchedOk()) ==> terminal
      ensures !terminal ==>
                && phase == Phase.Requested && overallDeadline <= CLOCK_MAX && now <= finishDeadline <= overallDeadline
                && finishDeadline - now == frequency * FINISH_SECONDS && overallDeadline - now == frequency * ATTEMPT_SECONDS
      ensures old(LatchedOk()) && !old(terminal) && old(operationSequence) != SEQUENCE_MAX && frequency > 0
              && now + frequency * ATTEMPT_SECONDS <= CLOCK_MAX
              && old(pendingCount) < PENDING_CAPACITY && old(transitionSequence) != SEQUENCE_MAX
              ==> !terminal
    {
      hide Core, Faulted, Valid;
      Opening();
      if !LatchedOk() {
        Miss();
        return;
      }
      Take();
      if operationSequence == SEQUENCE_MAX {
        Fault(InvalidRequest, MechanicsFailed, false);
        return;
      }
      operationSequence := operationSequence + 1;
      Schedule(now);
    }

    /** The deadlines of a request, if the clock can hold them; a frequency of 0 is an invalid one. */
    method Schedule(now: nat)
      requires Valid() && requested && !recipeEntered
      modifies this`diagnosis, this`terminal, this`finalPending,
               this`finishDeadline, this`overallDeadline, this`pendingCount, this`phase, this`qpc, this`transitionSequence
      ensures Valid() && (old(terminal) ==> terminal)
      ensures !terminal ==>
                && phase == Phase.Requested && overallDeadline <= CLOCK_MAX && now <= finishDeadline <= overallDeadline
                && finishDeadline - now == frequency * FINISH_SECONDS && overallDeadline - now == frequency * ATTEMPT_SECONDS
      ensures !old(terminal) && frequency > 0 && now + frequency * ATTEMPT_SECONDS <= CLOCK_MAX
              && old(pendingCount) < PENDING_CAPACITY && old(transitionSequence) != SEQUENCE_MAX
              ==> !terminal
    {
      assert !cancelEntered by { assert Untouched(); }
      hide Core, Faulted, Valid;
      if frequency == 0 || frequency > CLOCK_MAX / ATTEMPT_SECONDS || now > CLOCK_MAX - frequency * ATTEMPT_SECONDS {
        Fault(ClockFault, MechanicsFailed, false);
        return;
      }
      SetDeadlines(now);
      Ask(now);
    }

    method Ask(now: nat)
      requires Valid() && !recipeEntered && requested
      modifies this`diagnosis, this`terminal, this`finalPending, this`pendingCount,
               this`phase, this`qpc, this`transitionSequence
      ensures Valid() && (!terminal ==> phase == Phase.Requested)
      ensures old(terminal) ==> terminal
      ensures !old(terminal) && old(pendingCount) < PENDING_CAPACITY && old(transitionSequence) != SEQUENCE_MAX ==> !terminal
    {
      assert !finishTrue && Core() by { assert Untouched(); }
      hide Core;
      var _ := Transition(Phase.Requested, now);
    }

    /** The first visit of a request: its record, and the phase in which the world is examined. */
    method ServeRequested(now: nat)
      requires Valid() && requested && !terminal && phase == Phase.Requested
      modifies this`diagnosis, this`terminal, this`finalPending, this`pendingCount,
               this`phase, this`qpc, this`transitionSequence, this`control, this`claims, this`foreignFault
      ensures Valid() && !recipeEntered && ControlEvolves(old(control), control)
      ensures !terminal ==> phase == Phase.Qualifying
      ensures calm && old(transitionSequence) != SEQUENCE_MAX ==> !terminal && pendingCount == 0
    {
      hide Core, Faulted, Valid;
      Opening();
      OpenPhase();
      var written := RecordQualifying();
      if !written { return; }
      StartQualifying(now);
      written := RecordQualifying();
    }

    /** The record that the qualification waits for, and the one that it begins with. */
    method RecordQualifying() returns (written: bool)
      requires Valid() && requested && !recipeEntered
      modifies this`diagnosis, this`terminal, this`finalPending, this`pendingCount, this`control, this`claims, this`foreignFault
      ensures Valid() && ControlEvolves(old(control), control)
      ensures calm ==> written && Rec() == old(Rec()) && pendingCount == 0
      ensures (old(terminal) ==> terminal) && (!written ==> terminal)
    {
      hide Core, Faulted, Valid;
      Opening();
      var reserved := Check();
      if !reserved {
        Fault(QuotaUnavailable, MechanicsFailed, false);
        return false;
      }
      written := Flush();
      if !written { Fault(RecordingUnavailable, RecordingLost, false); }
    }

    method StartQualifying(now: nat)
      requires Valid() && !recipeEntered && requested
      modifies this`diagnosis, this`terminal, this`finalPending, this`pendingCount,
               this`phase, this`qpc, this`transitionSequence
      ensures Valid() && (!terminal ==> phase == Phase.Qualifying)
      ensures old(terminal) ==> terminal
      ensures !old(terminal) && old(pendingCount) < PENDING_CAPACITY && old(transitionSequence) != SEQUENCE_MAX ==> !terminal
    {
      assert !finishTrue && Core() by { assert Untouched(); }
      hide Core;
      var _ := Transition(Phase.Qualifying, now);
    }

    /** Nothing was written, recorded or called. */
    twostate predicate Waiting()
      reads this`phase, this`diagnosis, this`terminal, this`finalPending, this`pendingCount, this`qpc, this`trace
    {
      && phase == old(phase) && Rec() == old(Rec()) && pendingCount == old(pendingCount)
      && qpc == old(qpc) && trace == old(trace)
    }

    /** Waits for its qualifying record to be observed, examines everything that can be examined
        without touching anything, and then submits. */
    method ServeQualifying(now: nat) returns (threw: bool, waits: bool)
      requires Valid() && requested && !terminal && phase == Phase.Qualifying
      modifies this
      ensures Valid() && requested && old(trace) <= trace
      ensures started == old(started) && releases == old(releases) && ControlEvolves(old(control), control)
      ensures finishDeadline == old(finishDeadline) && overallDeadline == old(overallDeadline)
      ensures recipeEntered ==> now < finishDeadline
      ensures waits ==> !threw && !terminal && now < finishDeadline && Waiting()
      ensures threw ==> recipeEntered && terminal && diagnosis.restartRequired && exceptionObserved
      ensures old(Fine()) && now < finishDeadline && old(pendingCount) < PENDING_CAPACITY && old(transitionSequence) != SEQUENCE_MAX ==>
                !threw && !terminal && phase == Phase.FinishSubmitted && resource == LocalReleased
    {
      hide Core, Faulted, Valid;
      Opening();
      OpenPhase();
      threw, waits := false, false;
      if now >= finishDeadline {
        Fault(FinishTimeout, MechanicsFailed, false);
        return;
      }
      var observed := Check();
      if !observed { return false, true; }
      var passes := Check();
      if !passes {
        var code: nat := *;
        Fault(OtherReason(code), MechanicsFailed, false);
        return;
      }
      var quiescent := Quiescent();
      if quiescent { threw := SubmitFinish(); }
    }

    /** Nothing else is in flight, the lease holds, and there is credit for the whole recipe. */
    method Quiescent() returns (ok: bool)
      requires Valid() && !createInstalled
      modifies this`control, this`claims, this`foreignFault, this`diagnosis, this`terminal, this`finalPending,
               this`trace, this`qpc
      ensures Valid() && old(trace) <= trace && ControlEvolves(old(control), control)
      ensures ok ==> !terminal
      ensures old(Fine()) ==> ok && Fine()
    {
      assert Core();
      hide Core, Valid;
      ok := Check();
      if ok { ok := Lease(false); }
      if ok { ok := Check(); }
    }

    /** Waits for the Finish callback; its acknowledgement is all that happens on this visit. */
    method ServeSubmitted(now: nat)
      requires Valid() && requested && !terminal && phase == Phase.FinishSubmitted
      modifies this`control, this`claims, this`foreignFault, this`diagnosis, this`terminal, this`finalPending,
               this`qpc, this`trace, this`pendingCount, this`phase, this`transitionSequence, this`ack
      ensures Valid() && old(trace) <= trace && ControlEvolves(old(control), control)
      ensures old(diagnosis.restartRequired) ==> diagnosis.restartRequired
      ensures !terminal ==> phase == Phase.FinishSubmitted || phase == Phase.FinishAccepted
      ensures phase == Phase.FinishAccepted && !terminal ==> finishTrue && callbackId == finishId
      ensures calm && clock < finishDeadline && clock < overallDeadline && now < finishDeadline
              && finishObserved && finishTrue && callbackId == finishId
              && old(pendingCount) < PENDING_CAPACITY && old(transitionSequence) != SEQUENCE_MAX
              ==> !terminal && phase == Phase.FinishAccepted
    {
      hide Core, Faulted, Valid, StageOk, Leased;
      Opening();
      OpenPhase();
      if now >= finishDeadline {
        Fault(FinishTimeout, MechanicsFailed, true);
        return;
      }
      var ok := Lease(false);
      if !ok {
        Fault(LifecycleChanged, MechanicsFailed, true);
        return;
      }
      if finishObserved && finishTrue && enqueueReturned && callbackId == finishId { Accept(now); }
    }

    method Accept(now: nat)
      requires Valid() && !terminal && phase == Phase.FinishSubmitted && finishTrue && callbackId == finishId
      modifies this`diagnosis, this`terminal, this`finalPending, this`trace, this`pendingCount, this`phase, this`qpc,
               this`transitionSequence, this`ack
      ensures Valid() && old(trace) <= trace && Worsens(old(diagnosis), diagnosis)
      ensures !terminal ==> phase == Phase.FinishAccepted
      ensures old(pendingCount) < PENDING_CAPACITY && old(transitionSequence) != SEQUENCE_MAX ==> !terminal
    {
      hide Core, Below, AcceptedAt, SubmittedOk, Valid;
      LogAcceptance();
      var _ := Transition(Phase.FinishAccepted, now);
      CloseAccepted();
    }

    /** The acceptance and its witness: the answer seen, the request enqueued, and this visit. */
    ghost method LogAcceptance()
      requires Valid() && !terminal && phase == Phase.FinishSubmitted && finishTrue && callbackId == finishId
      modifies this`trace, this`ack
      ensures Core() && recipeEntered && SubmittedOk() && AcceptedAt(trace, Lim(), ack) && old(trace) <= trace
      ensures callbackDepth == 0 && (resource == NoResource || resource == LocalReleased) && Accounted()
    {
      ghost var was := trace;
      Log(Accepted(finishId));
      ack := Witness(seenAt, enqueuedAt, |trace| - 1, 0);
      assert AcceptedAt(trace, Lim(), ack);
      QuietStaysBelow(was, trace, CLEANUP_RANK);
      QuietKeeps(was, trace, Returned(Enqueue));
      hide Below, AcceptedAt, TraceOk;
    }

    lemma CloseAccepted()
      requires Core() && callbackDepth == 0 && (resource == NoResource || resource == LocalReleased) && Accounted()
      requires !terminal ==> phase == Phase.FinishAccepted && recipeEntered && SubmittedOk() && AcceptedAt(trace, Lim(), ack)
      ensures Valid()
    {
      hide TraceOk, Below, LatchOk, SeenOk, Untouched, ResourceOk, SubmittedOk;
    }

    /** The later visit: rebuilds the session. */
    method ServeAccepted(now: nat) returns (threw: bool)
      requires Valid() && !terminal && phase == Phase.FinishAccepted && Acknowledged(trace, Lim())
      modifies this`control, this`claims, this`foreignFault, this`diagnosis, this`terminal, this`finalPending,
               this`qpc, this`callbackId, this`finishObserved, this`finishTrue, this`trace, this`seenAt,
               this`pendingCount, this`phase, this`transitionSequence, this`createInstalled, this`createId,
               this`exceptionPending, this`exceptionObserved, this`recipeCompleted
      ensures Valid() && ControlEvolves(old(control), control) && old(trace) <= trace
      ensures old(diagnosis.restartRequired) ==> diagnosis.restartRequired
      ensures !terminal ==> phase == Phase.Recreating && !threw
      ensures threw ==> diagnosis.restartRequired && exceptionObserved
      ensures old(Fine()) && now < finishDeadline && old(pendingCount) < PENDING_CAPACITY && old(transitionSequence) != SEQUENCE_MAX ==>
                !terminal && !threw
    {
      hide Core, Faulted, Valid, Acknowledged;
      threw := false;
      if now >= finishDeadline {
        Fault(FinishTimeout, MechanicsFailed, true);
        return;
      }
      var headroom: bool := *;
      if calm { headroom := true; }
      if !headroom {
        Fault(NativeProfileMismatch, MechanicsFailed, true);
        return;
      }
      threw := Recreate();
    }

    /** The forwarded creation returned: is there a new session, and is it the cached one? */
    method ServeRecreating(now: nat)
      requires Valid() && !terminal && phase == Phase.Recreating && createReturned
      modifies this`control, this`claims, this`foreignFault, this`diagnosis, this`terminal, this`finalPending,
               this`qpc, this`trace, this`pendingCount, this`phase, this`transitionSequence,
               this`published, this`metadataDeadline, this`bindingSuspended
      ensures Valid() && old(trace) <= trace && ControlEvolves(old(control), control)
      ensures old(diagnosis.restartRequired) ==> diagnosis.restartRequired
      ensures !terminal ==> phase == Phase.Recreating || (phase == Phase.Published && published)
      ensures !terminal && phase == Phase.Published ==> metadataDeadline == MetadataDeadline(now)
      ensures calm && clock < overallDeadline && old(pendingCount) < PENDING_CAPACITY && old(transitionSequence) != SEQUENCE_MAX ==>
                !terminal && phase == Phase.Published && !bindingSuspended
    {
      hide Core, Faulted, Valid, MetadataDeadline;
      var ok := ExamineSession();
      if !ok { return; }
      var rescheduled := Check();
      if rescheduled {
        PublishLocally(now);
        bindingSuspended := false;
      }
    }

    method ExamineSession() returns (ok: bool)
      requires Valid() && !terminal && phase == Phase.Recreating
      modifies this`control, this`claims, this`foreignFault, this`diagnosis, this`terminal, this`finalPending,
               this`qpc, this`trace
      ensures Valid() && old(trace) <= trace && ControlEvolves(old(control), control)
      ensures Worsens(old(diagnosis), diagnosis) && (ok ==> !terminal)
      ensures calm && clock < overallDeadline ==> ok
    {
      hide Core, Faulted, Valid, Leased;
      Opening();
      OpenPhase();
      ok := Lease(false);
      if ok { ok := Check(); }
      if !ok {
        Fault(CreateFailed, MechanicsFailed, true);
        return;
      }
      ok := Check();
    }

    /** The metadata has its own time, and is settled a second before the attempt ends. */
    function MetadataDeadline(now: nat): nat
      reads this`overallDeadline
    {
      var own, last := (now + frequency * METADATA_SECONDS) % TWO_64, (overallDeadline - frequency) % TWO_64;
      if own < last then own else last
    }

    method PublishLocally(now: nat)
      requires Valid() && !terminal && phase == Phase.Recreating
      modifies this`diagnosis, this`terminal, this`finalPending, this`pendingCount, this`phase, this`qpc,
               this`transitionSequence, this`published, this`metadataDeadline
      ensures Valid() && published && Worsens(old(diagnosis), diagnosis)
      ensures metadataDeadline == MetadataDeadline(now)
      ensures !terminal ==> phase == Phase.Published
      ensures old(pendingCount) < PENDING_CAPACITY && old(transitionSequence) != SEQUENCE_MAX ==> !terminal
    {
      hide Core, MetadataDeadline;
      assert Core() && recipeEntered && createInstalled by { OpenPhase(); Opening(); }
      SetPublished(now);
      var _ := Transition(Phase.Published, now);
    }

    method SetPublished(now: nat)
      requires Core() && recipeEntered && createInstalled
      modifies this`published, this`metadataDeadline
      ensures Core() && published && metadataDeadline == MetadataDeadline(now)
    {
      metadataDeadline := MetadataDeadline(now);
      hide MetadataDeadline, TraceOk, Below, LatchOk, ResourceOk, SeenOk;
      published := true;
    }

    /** The published session is watched until its metadata is coherent or its time is up; a visit
        that settles nothing leaves the rest to ordinary management. */
    method ServePublished(now: nat) returns (handled: bool)
      requires Valid() && !terminal && phase == Phase.Published
      modifies this`control, this`claims, this`foreignFault, this`diagnosis, this`terminal, this`finalPending,
               this`qpc, this`trace, this`pendingCount, this`phase, this`transitionSequence, this`coherent
      ensures Valid() && old(trace) <= trace && ControlEvolves(old(control), control)
      ensures handled ==> terminal
      ensures !terminal ==> phase == Phase.Published && pendingCount == old(pendingCount)
      ensures old(diagnosis.restartRequired) ==> diagnosis.restartRequired
      ensures now >= metadataDeadline ==> handled && trace == old(trace)
      ensures now >= metadataDeadline && old(pendingCount) < PENDING_CAPACITY && old(transitionSequence) != SEQUENCE_MAX ==>
                phase == Phase.Observed && diagnosis.reason == MetadataTimeout && diagnosis.unverified
    {
      hide Core, Valid, Faulted;
      if now >= metadataDeadline {
        CompleteMetadata(now, MetadataTimeout, false);
        return true;
      }
      var code: nat := *;
      var same := Check();
      if !same {
        CompleteMetadata(now, OtherReason(code), false);
        return true;
      }
      var due: bool := *;
      if !due { return false; }
      var read := ReadMetadata(code);
      if !read { return terminal; }
      var matches, many, stable: bool := *, *, *;
      handled := Settle(now, code, matches, many, stable);
    }

    /** The inputs of the metadata, or the reason why there are none. */
    method ReadMetadata(code: nat) returns (ok: bool)
      requires Valid() && !terminal && phase == Phase.Published
      modifies this`control, this`claims, this`foreignFault, this`diagnosis, this`terminal, this`finalPending,
               this`qpc, this`trace
      ensures Valid() && old(trace) <= trace && ControlEvolves(old(control), control)
      ensures old(diagnosis.restartRequired) ==> diagnosis.restartRequired
      ensures ok ==> !terminal && diagnosis == old(diagnosis) && |trace| == |old(trace)| + 1 && qpc < overallDeadline
    {
      hide Core, Valid, Faulted, Leased;
      Opening();
      ok := Lease(true);
      if ok { ok := TimeInputs(); }
      if ok || terminal { return; }
      Remark(OtherReason(code));
      var _ := Publish();
    }

    /** The inputs themselves, timed once more at their end. */
    method TimeInputs() returns (ok: bool)
      requires Core() && !terminal
      modifies this`control, this`claims, this`foreignFault, this`diagnosis, this`terminal, this`finalPending, this`qpc
      ensures Core() && (old(Valid()) ==> Valid()) && Worsens(old(diagnosis), diagnosis)
      ensures ControlEvolves(old(control), control)
      ensures ok ==> !terminal && diagnosis == old(diagnosis) && qpc < overallDeadline
    {
      hide Core, Valid, Faulted;
      ok := Check();
      if !ok { return; }
      var now;
      ok, now := Clock();
      if !ok {
        OwnerClockFault();
        return;
      }
      qpc := now;
      if qpc >= overallDeadline { return false; }
      ok := Check();
    }

    /** What inputs that could be read come to: metadata that matches ends the attempt well at any
        time; a restore is tried only on a stable world and before the deadline of the metadata,
        and what it achieves is an arbitrary answer. */
    method Settle(now: nat, code: nat, matches: bool, many: bool, stable: bool) returns (handled: bool)
      requires Valid() && !terminal && phase == Phase.Published
      modifies this`diagnosis, this`terminal, this`finalPending, this`qpc, this`pendingCount, this`phase,
               this`transitionSequence, this`coherent
      ensures Valid() && (handled ==> terminal)
      ensures !terminal ==> phase == Phase.Published && pendingCount == old(pendingCount)
      ensures old(diagnosis.restartRequired) ==> diagnosis.restartRequired
      ensures handled && old(pendingCount) < PENDING_CAPACITY && old(transitionSequence) != SEQUENCE_MAX ==>
                phase == Phase.Observed && (diagnosis.reason == NoReason <==> !diagnosis.unverified)
      ensures matches || many ==> handled
      ensures old(pendingCount) < PENDING_CAPACITY && old(transitionSequence) != SEQUENCE_MAX ==>
                && (matches ==> diagnosis.reason == NoReason)
                && (!matches && !many && stable && old(qpc) >= metadataDeadline ==> handled && diagnosis.reason == MetadataTimeout)
                && (handled && !matches && (many || !stable) ==> diagnosis.reason != NoReason)
    {
      hide Core, Valid, Faulted;
      if matches {
        CompleteMetadata(now, NoReason, true);
        return true;
      }
      if many {
        CompleteMetadata(now, OtherReason(code), false);
        return true;
      }
      if stable && qpc >= metadataDeadline {
        CompleteMetadata(qpc, MetadataTimeout, false);
        return true;
      }
      var ends, restored: bool := *, *;
      if stable && ends {
        CompleteMetadata(qpc, if restored then NoReason else OtherReason(code), restored);
        return true;
      }
      Opening();
      Remark(OtherReason(code));
      var _ := Publish();
      handled := false;
    }

    /** A provisional diagnosis; the invariant does not depend on it. */
    method Remark(reason: Reason)
      requires Core()
      modifies this`diagnosis
      ensures Core() && (old(Valid()) ==> Valid()) && diagnosis == old(diagnosis).(reason := reason)
    {
      hide TraceOk, Untouched, ResourceOk, SeenOk, StageOk;
      diagnosis := diagnosis.(reason := reason);
    }

    /** The end of a publication, whatever became of its metadata. */
    method CompleteMetadata(now: nat, reason: Reason, isCoherent: bool)
      requires Valid() && phase == Phase.Published && !terminal
      modifies this`diagnosis, this`terminal, this`finalPending, this`pendingCount, this`phase, this`qpc,
               this`transitionSequence, this`coherent
      ensures Valid() && terminal
      ensures old(diagnosis.restartRequired) ==> diagnosis.restartRequired
      ensures old(pendingCount) < PENDING_CAPACITY && old(transitionSequence) != SEQUENCE_MAX ==>
                && phase == Phase.Observed && diagnosis.outcome == PublishedNotDelivered && diagnosis.reason == reason
                && (isCoherent ==> coherent && !diagnosis.unverified) && (!isCoherent ==> diagnosis.unverified)
                && diagnosis.restartRequired == old(diagnosis.restartRequired)
    {
      hide Core, Valid, Faulted;
      Opening();
      OpenPhase();
      Conclusion(reason, isCoherent);
      var _ := Transition(Phase.Observed, now);
      Finish();
    }

    method Conclusion(reason: Reason, isCoherent: bool)
      requires Core()
      modifies this`diagnosis, this`coherent
      ensures Core() && (isCoherent ==> coherent)
      ensures diagnosis == old(diagnosis).(reason := reason, outcome := PublishedNotDelivered, unverified := !isCoherent)
    {
      hide TraceOk, Untouched, ResourceOk, SeenOk;
      diagnosis := diagnosis.(reason := reason, outcome := PublishedNotDelivered, unverified := !isCoherent);
      if isCoherent { coherent := true; }
    }

    method Finish()
      requires Core() && published && recipeEntered
      requires callbackDepth == 0 && (resource == NoResource || resource == LocalReleased || diagnosis.restartRequired)
      requires Accounted()
      modifies this`terminal, this`finalPending
      ensures Valid() && terminal && finalPending
    {
      hide TraceOk, Untouched, ResourceOk, StageOk;
      terminal, finalPending := true, true;
    }

    /** A retryable rejection ends for good, waits on, or gives way to a new request. */
    method Renew(now: nat) returns (handled: bool)
      requires Valid() && terminal && diagnosis.retryable
      modifies this`diagnosis, this`terminal, this`finalPending, this`pendingCount,
               this`phase, this`qpc, this`transitionSequence, this`exceptionPending,
               this`bindingSuspended, this`control, this`claims, this`foreignFault, this`releases,
               this`published, this`exceptionObserved, this`coherent, this`recipeCompleted,
               this`staged, this`finishDeadline, this`overallDeadline, this`requested
      ensures Valid() && !recipeEntered
      ensures handled && !terminal ==> !requested && phase == Phase.Armed
      ensures !handled ==> terminal && diagnosis == old(diagnosis)
      ensures calm ==> (!handled <==> !old(foreignFault) && !old(control.stopped) && old(control.ready) && !old(LatchedOk()))
      ensures calm && old(LatchedOk()) && !old(foreignFault) && !old(control.stopped) && old(control.ready) ==> !terminal
    {
      hide Core, Valid, Faulted;
      Opening();
      if foreignFault {
        Fault(CallbackInvalid, MechanicsFailed, true);
        FinishTerminal(now);
        return true;
      }
      var _ := Check();
      if control.stopped || !control.ready {
        Withdraw();
        FinishTerminal(now);
        return true;
      }
      if !LatchedOk() { return false; }
      Reset();
      return true;
    }

    method Withdraw()
      requires Valid() && terminal && diagnosis.retryable
      modifies this`diagnosis, this`finalPending
      ensures Valid() && !diagnosis.retryable && finalPending && diagnosis.reason == ControlWorkerUnavailable
    {
      hide TraceOk, Untouched, ResourceOk, SeenOk, StageOk;
      diagnosis := diagnosis.(retryable := false, reason := ControlWorkerUnavailable);
      finalPending := true;
    }

    /** What every visit does first: it may take up a request, or has to end the attempt. */
    method Prologue(now: nat) returns (go: bool, handled: bool)
      requires Valid()
      modifies this`diagnosis, this`terminal, this`finalPending, this`pendingCount,
               this`phase, this`qpc, this`transitionSequence, this`exceptionPending,
               this`bindingSuspended, this`control, this`claims, this`foreignFault, this`releases,
               this`published, this`exceptionObserved, this`coherent, this`recipeCompleted,
               this`staged, this`finishDeadline, this`overallDeadline, this`requested, this`operationSequence, this`started
      ensures Valid()
      ensures go ==> requested && !terminal && now < overallDeadline
      ensures !go && handled ==> terminal
      ensures recipeEntered ==>
                && requested && started == old(started) && releases == old(releases) && ControlEvolves(old(control), control)
                && finishDeadline == old(finishDeadline) && overallDeadline == old(overallDeadline)
                && (old(terminal) ==> terminal) && (old(diagnosis.restartRequired) ==> diagnosis.restartRequired)
      ensures old(requested) && !old(terminal) && go ==>
                && phase == old(phase) && pendingCount == old(pendingCount) && qpc == now
                && transitionSequence == old(transitionSequence)
                && finishDeadline == old(finishDeadline) && overallDeadline == old(overallDeadline)
      ensures calm && old(requested) && !old(terminal) && !old(foreignFault) && now < old(overallDeadline) ==> go
    {
      hide Core, Valid, Faulted;
      Opening();
      if terminal && diagnosis.retryable {
        handled := Renew(now);
        if !handled || terminal { return false, handled; }
      }
      handled := true;
      if requested && !terminal { qpc := now; }
      if foreignFault { Fault(CallbackInvalid, MechanicsFailed, true); }
      if !requested { Begin(now); }
      go := Proceed(now);
    }

    /** The overall deadline and the recorder's admission. */
    method Proceed(now: nat) returns (go: bool)
      requires Valid() && requested
      modifies this`diagnosis, this`terminal, this`finalPending, this`pendingCount,
               this`phase, this`qpc, this`transitionSequence, this`exceptionPending,
               this`bindingSuspended, this`control, this`claims, this`foreignFault, this`releases
      ensures Valid()
      ensures go ==> !old(terminal) && !terminal && now < overallDeadline
      ensures go ==> phase == old(phase) && pendingCount == old(pendingCount) && qpc == old(qpc) && transitionSequence == old(transitionSequence)
      ensures !go ==> terminal
      ensures old(diagnosis.restartRequired) ==> diagnosis.restartRequired
      ensures recipeEntered ==> releases == old(releases) && ControlEvolves(old(control), control)
      ensures calm && !old(terminal) && now < overallDeadline ==> go
    {
      hide Core, Valid, Faulted;
      if !terminal && now >= overallDeadline { Fault(AttemptTimeout, MechanicsFailed, cancelEntered); }
      go := !terminal;
      if go {
        go := Check();
        if !go { Fault(RecordingUnavailable, RecordingLost, cancelEntered); }
      }
      if !go { FinishTerminal(now); }
    }

    /** There is room for one more record. */
    predicate Roomy()
      reads this`pendingCount, this`transitionSequence
    {
      pendingCount < PENDING_CAPACITY && transitionSequence != SEQUENCE_MAX
    }

    /** The part of a visit that belongs to the phase. A visit that has just asked, that waits for
        its qualifying record or that settles no metadata ends here. */
    method Dispatch(now: nat) returns (threw: bool, ends: bool, handled: bool)
      requires Valid() && requested && !terminal && (phase == Phase.FinishAccepted ==> Acknowledged(trace, Lim()))
      modifies this
      ensures Valid() && Kept() && requested
      ensures ends ==> !threw && (old(phase) == Phase.Requested || old(phase) == Phase.Qualifying || old(phase) == Phase.Published)
      ensures ends && old(phase) == Phase.Qualifying ==> Waiting()
      ensures !handled ==> ends && old(phase) == Phase.Published
      ensures old(phase) == Phase.Requested ==> (ends <==> !terminal)
      ensures threw ==> terminal && diagnosis.restartRequired && exceptionObserved
      ensures old(Fine()) && now < old(finishDeadline) && old(Roomy()) ==>
                && (old(phase) == Phase.Qualifying ==> phase == Phase.FinishSubmitted && !terminal && !threw)
                && (old(phase) == Phase.FinishSubmitted && old(finishTrue && callbackId == finishId) ==>
                      phase == Phase.FinishAccepted && !terminal)
                && (old(phase) == Phase.FinishAccepted ==> phase == Phase.Recreating && !terminal && !threw)
    {
      hide Core, Valid, Acknowledged;
      Opening();
      OpenPhase();
      threw, ends, handled := false, false, true;
      if phase == Phase.Requested {
        ServeRequested(now);
        ends := !terminal;
      } else if phase == Phase.Qualifying {
        threw, ends := ServeQualifying(now);
      } else if phase == Phase.FinishSubmitted {
        ServeSubmitted(now);
      } else if phase == Phase.FinishAccepted {
        threw := ServeAccepted(now);
      } else if phase == Phase.Recreating && createReturned {
        ServeRecreating(now);
      } else if phase == Phase.Published {
        handled := ServePublished(now);
        ends := !handled;
      }
    }

    /** ... and what ends it. */
    method Epilogue(now: nat)
      requires Valid() && requested
      modifies this`diagnosis, this`terminal, this`finalPending, this`pendingCount,
               this`phase, this`qpc, this`transitionSequence, this`exceptionPending,
               this`bindingSuspended, this`control, this`claims, this`foreignFault, this`releases
      ensures Valid()
      ensures old(terminal) ==> terminal
      ensures old(diagnosis.restartRequired) ==> diagnosis.restartRequired
      ensures recipeEntered ==> releases == old(releases) && ControlEvolves(old(control), control)
      ensures calm && !old(terminal) ==> !terminal && phase == old(phase)
    {
      assert Core();
      hide Core, Valid;
      if terminal {
        FinishTerminal(now);
      } else {
        var flushed := Flush();
        var _ := Publish();
      }
    }

    /** The phase's part and, unless the visit ends with it, the closing records. */
    method Work(now: nat) returns (handled: bool, threw: bool, ends: bool)
      requires Valid() && requested && !terminal && (phase == Phase.FinishAccepted ==> Acknowledged(trace, Lim()))
      modifies this
      ensures Valid() && Kept()
      ensures ends ==> !threw && (old(phase) == Phase.Requested || old(phase) == Phase.Qualifying || old(phase) == Phase.Published)
      ensures ends && old(phase) == Phase.Qualifying ==> Waiting()
      ensures !handled ==> ends && old(phase) == Phase.Published
      ensures threw ==> terminal && diagnosis.restartRequired && exceptionObserved
      ensures old(Fine()) && now < old(finishDeadline) && old(Roomy()) ==>
                && (old(phase) == Phase.Qualifying ==> phase == Phase.FinishSubmitted && !terminal && !threw)
                && (old(phase) == Phase.FinishSubmitted && old(finishTrue && callbackId == finishId) ==>
                      phase == Phase.FinishAccepted && !terminal)
                && (old(phase) == Phase.FinishAccepted ==> phase == Phase.Recreating && !terminal && !threw)
    {
      hide Core, Valid, Acknowledged;
      Opening();
      threw, ends, handled := Dispatch(now);
      if !threw && !ends { Epilogue(now); }
    }

    /** A visit that nothing stands in the way of. */
    predicate Progressing(now: nat)
      reads this
    {
      && calm && requested && !terminal && !foreignFault && Roomy()
      && now <= clock && clock < finishDeadline && clock < overallDeadline
    }

    /** One visit of the owner, on a qualified capture. */
    method Service(now: nat) returns (handled: bool, threw: bool)
      requires Valid()
      modifies this
      ensures Valid() && Kept()
      ensures threw ==> terminal && diagnosis.restartRequired && exceptionObserved
      ensures old(Progressing(now)) ==>
                && (old(phase) == Phase.Qualifying ==> phase == Phase.FinishSubmitted && !terminal && !threw)
                && (old(phase) == Phase.FinishSubmitted && old(finishTrue && callbackId == finishId) ==>
                      phase == Phase.FinishAccepted && !terminal)
                && (old(phase) == Phase.FinishAccepted ==> phase == Phase.Recreating && !terminal && !threw)
    {
      hide Core, Valid, Acknowledged;
      Opening();
      threw := false;
      LogVisit();
      var go;
      go, handled := Prologue(now);
      if !go { return; }
      Opening();
      var ends;
      handled, threw, ends := Work(now);
    }

    /** A visit after the acceptance acknowledges it. */
    ghost method LogVisit()
      requires Valid()
      modifies this`trace
      ensures Valid() && old(trace) <= trace
      ensures !terminal && phase == Phase.FinishAccepted ==> Acknowledged(trace, Lim())
    {
      ghost var w := ack.(visit := |trace|);
      ghost var accepted := !terminal && phase == Phase.FinishAccepted;
      assert accepted ==> AcceptedAt(trace, Lim(), ack);
      Log(Visit);
      assert accepted ==> AcknowledgedAt(trace, Lim(), w);
    }

    /** A visit on a capture that carries no authority: it can only let time run out and tidy up. */
    method ServiceUnsupported(now: int)
      requires Valid()
      modifies this`diagnosis, this`terminal, this`finalPending, this`pendingCount, this`phase, this`qpc,
               this`transitionSequence, this`bindingSuspended, this`control, this`claims, this`foreignFault
      ensures Valid() && Kept()
      ensures requested && !old(terminal) && (now < 0 || now >= overallDeadline || old(foreignFault)) ==> terminal
      ensures requested && !old(terminal) && now >= finishDeadline
              && (old(phase) == Phase.Qualifying || old(phase) == Phase.FinishSubmitted || old(phase) == Phase.FinishAccepted)
              ==> terminal
    {
      hide Core, Valid, Faulted;
      Opening();
      if !requested { return; }
      if !terminal && now >= 0 { qpc := now; }
      if foreignFault { Fault(CallbackInvalid, MechanicsFailed, true); }
      if !terminal { Expire(now); }
      if terminal { Tidy(); }
    }

    method Expire(now: int)
      requires Valid() && !terminal
      modifies this`diagnosis, this`terminal, this`finalPending
      ensures Valid() && Worsens(old(diagnosis), diagnosis)
      ensures terminal <==>
                || now < 0 || now >= overallDeadline
                || (now >= finishDeadline
                    && (phase == Phase.Qualifying || phase == Phase.FinishSubmitted || phase == Phase.FinishAccepted))
    {
      hide Core, Valid, Faulted;
      if now < 0 {
        Fault(ClockFault, MechanicsFailed, cancelEntered);
      } else if now >= overallDeadline {
        Fault(AttemptTimeout, MechanicsFailed, cancelEntered);
      } else if (phase == Phase.Qualifying || phase == Phase.FinishSubmitted || phase == Phase.FinishAccepted) && now >= finishDeadline {
        Fault(FinishTimeout, MechanicsFailed, cancelEntered);
      }
    }

    method Tidy()
      requires Valid() && terminal
      modifies this`diagnosis, this`terminal, this`finalPending, this`pendingCount, this`phase,
               this`transitionSequence, this`bindingSuspended, this`control, this`claims, this`foreignFault
      ensures Valid() && terminal && Worsens(old(diagnosis), diagnosis) && ControlEvolves(old(control), control)
      ensures phase == old(TerminalPhase()) && pendingCount == 0
    {
      hide Core, Valid, Faulted, TerminalPhase;
      Opening();
      EnterTerminal();
      Drain();
      Owe(!recipeEntered && phase == Phase.Rejected);
      var _ := Publish();
      FreeBinding();
    }

    /** Whether a final record is still owed; the invariant does not depend on it. */
    method Owe(final: bool)
      requires Core()
      modifies this`finalPending
      ensures Core() && (old(Valid()) ==> Valid()) && finalPending == final
    {
      hide Core, Valid;
      finalPending := final;
    }

    method EnterTerminal()
      requires Valid() && terminal
      modifies this`phase, this`transitionSequence
      ensures Valid() && Core() && phase == TerminalPhase()
    {
      hide TraceOk, Untouched, LatchOk, ResourceOk, StageOk;
      if phase != TerminalPhase() && transitionSequence != SEQUENCE_MAX { transitionSequence := transitionSequence + 1; }
      phase := TerminalPhase();
    }

    // ---- Whole runs ----

    /** Anything that can happen between two points where nobody is inside. */
    method Anything() returns (threw: bool)
      requires Valid()
      modifies this
      ensures Valid() && Kept()
    {
      hide Core, Valid, Quiet;
      Opening();
      threw := false;
      if {
        case true =>
          var now: nat := *;
          var _, t := Service(now);
          threw := t;
        case true =>
          var now: int := *;
          ServiceUnsupported(now);
        case true =>
          var owner: bool, id: nat, errorCall: bool, isTrue: bool := *, *, *, *;
          FinishObservation(owner, id, errorCall, isTrue);
          QuietIsPrefix(old(trace), trace);
        case true =>
          var owner: bool, id: nat := *, *;
          threw := CreateSuccess(owner, id);
        case true =>
          var _ := Check();
      }
    }

    /** Any run of the process, of any length: the trace stays admissible, so that every lemma
        about admissible traces is about every run. */
    method Run(length: nat)
      requires Valid()
      modifies this
      ensures Valid() && Kept()
      ensures TraceOk(trace, Lim())
      ensures recipeEntered ==> control.latched != NoOrigin && !diagnosis.retryable
      ensures started <= claims <= releases + 1
      ensures Closed(Account(trace)) && (Taken(Account(trace)) <==> resource != NoResource)
      ensures GivenBack(Account(trace)) <==> resource == LocalReleased
      ensures Retained(Account(trace)) ==> terminal && diagnosis.restartRequired
    {
      var left := length;
      while left > 0
        invariant Valid() && Kept()
      {
        hide Core, Valid;
        var _ := Anything();
        left := left - 1;
      }
    }
  }
}
