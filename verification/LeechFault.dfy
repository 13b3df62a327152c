/** The diagnosis of a recovery attempt, and the one function through which every failure is
    recorded in it.
 */
module LeechFault {

  datatype Phase =
    | Disabled | Armed | Requested | Qualifying | FinishSubmitted | FinishAccepted
    | Recreating | Published | Observed | Failed | Rejected

  datatype Reason =
    | NoReason | InvalidRequest | SourceChanged | LifecycleChanged | HeartbeatUnavailable
    | DescriptorUnavailable | RequestPoolUnavailable | QuotaUnavailable | RetirementFailed
    | RecordingUnavailable | FinishEnqueueFailed | CallbackInvalid | FinishRejected | FinishTimeout
    | AttemptTimeout | CreateFailed | ClockFault | NativeException | InverseUnavailable
    | ControlWorkerUnavailable | NativeProfileMismatch | PublishedIdentityChanged | MetadataTimeout
    | OtherReason(code: nat)                     // a preflight, guard or metadata diagnosis

  datatype Outcome =
    | NoOutcome | MechanicsFailed | ClearedCacheNoSession | NativeUnwind | RecordingLost | PublishedNotDelivered

  datatype Resource = NoResource | AllocatedUnbound | BoundLocal | EnqueueEntered | LocalReleased

  datatype Diagnosis = Diagnosis(
    reason: Reason, outcome: Outcome, restartRequired: bool, retryable: bool, unverified: bool)

  const NO_DIAGNOSIS := Diagnosis(NoReason, NoOutcome, false, false, false)

  /** What a fault writes. */
  datatype Record = Record(diagnosis: Diagnosis, terminal: bool, finalPending: bool)

  /** What a fault looks at besides. */
  datatype Facts = Facts(published: bool, exceptionObserved: bool, coherent: bool)

  predicate Critical(reason: Reason) {
    reason == NativeException || reason == InverseUnavailable || reason == PublishedIdentityChanged
  }

  predicate NativeFault(d: Diagnosis, facts: Facts) {
    facts.exceptionObserved || d.reason == PublishedIdentityChanged || d.outcome == NativeUnwind
  }

  predicate Shielded(d: Diagnosis, facts: Facts, reason: Reason) {
    facts.published && !Critical(reason) && !NativeFault(d, facts)
  }

  /** A fault outranks the diagnosis of an attempt that is already terminal. */
  predicate Outranks(d: Diagnosis, facts: Facts, reason: Reason, restart: bool) {
    || (d.retryable && restart)
    || reason == NativeException
    || (reason == InverseUnavailable && !facts.exceptionObserved)
  }

  function Faulted(r: Record, facts: Facts, reason: Reason, outcome: Outcome, restart: bool): Record {
    var d := r.diagnosis;
    var serious := restart || Critical(reason) || NativeFault(d, facts);
    var shielded := Shielded(d, facts, reason);
    var restarts := restart && !shielded;
    var diagnoses := !r.terminal || Outranks(d, facts, reason, restarts);
    Record(
      Diagnosis(
        if !diagnoses then d.reason else if shielded && reason == AttemptTimeout then MetadataTimeout else reason,
        if !diagnoses then d.outcome else if shielded then PublishedNotDelivered else outcome,
        d.restartRequired || restarts,
        d.retryable && !serious,
        d.unverified || (shielded && !facts.coherent)),
      true,
      r.finalPending || !r.terminal || (serious && d.retryable))
  }

  /** A demand for a restart is never withdrawn, an offer to retry never made. */
  predicate Worsens(d: Diagnosis, e: Diagnosis) {
    (d.restartRequired ==> e.restartRequired) && (e.retryable ==> d.retryable)
  }

  // ---- What faults mean ----

  /** A local publication stays a fact: only a native unwind or a changed identity can still
      demand a restart, and everything else reports the publication as not delivered. */
  lemma PublicationInventsNoRestart(r: Record, facts: Facts, reason: Reason, outcome: Outcome, restart: bool)
    requires Shielded(r.diagnosis, facts, reason)
    ensures var f := Faulted(r, facts, reason, outcome, restart);
            && f.diagnosis.restartRequired == r.diagnosis.restartRequired
            && (f.diagnosis.unverified || facts.coherent)
            && (!r.terminal ==> f.diagnosis.outcome == PublishedNotDelivered && f.diagnosis.reason != AttemptTimeout)
  {
  }

  /** Without that shield a demanded restart is always recorded; it is never withdrawn. */
  lemma RestartIsKept(r: Record, facts: Facts, reason: Reason, outcome: Outcome, restart: bool)
    ensures var f := Faulted(r, facts, reason, outcome, restart);
            && (f.diagnosis.restartRequired <==>
                  r.diagnosis.restartRequired || (restart && !Shielded(r.diagnosis, facts, reason)))
            && f.terminal && Worsens(r.diagnosis, f.diagnosis)
  {
  }

  /** The first terminal diagnosis stands, unless a native unwind, a failed inverse, or a restart
      after a retryable rejection outranks it. */
  lemma FirstDiagnosisStands(r: Record, facts: Facts, reason: Reason, outcome: Outcome, restart: bool)
    requires r.terminal
    ensures var f := Faulted(r, facts, reason, outcome, restart).diagnosis;
            f.reason != r.diagnosis.reason || f.outcome != r.diagnosis.outcome ==>
              reason == NativeException || reason == InverseUnavailable || (restart && r.diagnosis.retryable)
  {
  }

  /** A fault that matters withdraws the offer to retry and asks for a new final record. */
  lemma RetryWithdrawn(r: Record, facts: Facts, reason: Reason, outcome: Outcome, restart: bool)
    requires r.diagnosis.retryable
    ensures var f := Faulted(r, facts, reason, outcome, restart);
            && (f.diagnosis.retryable <==> !(restart || Critical(reason) || NativeFault(r.diagnosis, facts)))
            && (!f.diagnosis.retryable ==> f.finalPending)
  {
  }
}
