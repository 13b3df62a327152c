/** The lock-free protocol between the observer's wrapped calls and its one installer.

    Any number of calls run at once; each is a program counter with its locals, and one
    step of one call is one atomic access of the shared dispatch state. A run is any
    interleaving of such steps, so every lemma about runs is about every interleaving.
 */
module ObserverProtocol {

  import opened Options

  const WORD_HALF: nat := 0x1_0000_0000
  const HALF_MAX: nat := 0xFFFF_FFFF
  const BINDING_CAPACITY: nat := 16

  /** High half of the lifecycle word. */
  function Entries(word: nat): nat { word / WORD_HALF }

  /** Low half of the lifecycle word. */
  function Flying(word: nat): nat { word % WORD_HALF }

  datatype Gate = Preparing | Armed | Contaminated | Disabled

  datatype Installer = Working | Failing | Finished

  datatype Key = Key(target: nat, user: int, sequence: nat)

  datatype Binding = Binding(key: Key, id: nat, accepted: bool)

  /** What a caller passes to the accepted-binding lookup: an original object or a proxy. */
  datatype ObjectRef = Original(target: nat) | ProxyOf(id: nat)

  datatype Kind =
    | LifecycleCall                              // Init or Shutdown
    | ExternalCall                               // the reporting pump
    | FactoryCall(qualifies: bool, user: int)
    | LookupCall(wanted: ObjectRef)

  predicate Qualifying(kind: Kind) {
    kind.LifecycleCall? || kind.ExternalCall? || (kind.FactoryCall? && kind.qualifies)
  }

  datatype Pc =
    // Admission.
    | AdmitRead
    | AdmitSwap
    | Refused
    | Admitted                                   // an external call has nothing further to do
    // Init and Shutdown.
    | EnterRead
    | EnterSwap(seen: nat)
    | EnterUnknown
    | InNative(owned: bool)
    | LeaveRead
    | LeaveSwap(seen: nat)
    | Left(owned: bool)
    | LeaveUnderflow
    // The interface factory.
    | BeforeRead
    | InFactory(before: nat)
    | AfterRead(before: nat, target: nat)
    | FirstUnknown(before: nat, target: nat)
    | FirstLookup(before: nat, target: nat)
    | TakeLock(before: nat, target: nat, valid: bool)
    | LockedRead(before: nat, target: nat, valid: bool)
    | LockedUnknown(before: nat, target: nat, valid: bool)
    | LockedBind(before: nat, target: nat, valid: bool)
    | ReturnedRaw
    | ReturnedProxy(before: nat, target: nat, id: nat)
    // The accepted-binding lookup.
    | LookupGate
    | LookupUnknown
    | LookupBefore
    | LookupScan(before: nat)
    | RecheckGate(before: nat, id: nat)
    | RecheckWord(before: nat, id: nat)
    | RecheckUnknown(before: nat, id: nat)
    | LookupFailed
    | LookupAccepted(before: nat, id: nat)

  datatype Call = Call(kind: Kind, pc: Pc)

  datatype State = State(
    gate: Gate,
    lifecycle: nat,
    unknown: bool,
    bindings: seq<Binding>,
    exhausted: bool,
    lock: Option<nat>,
    installer: Installer,
    calls: seq<Call>)

  const INITIAL := State(Preparing, 0, false, [], false, None, Working, [])

  // ---- The binding cache ----

  /** Index of the first entry with this key, or the number of entries. */
  function FindFrom(bindings: seq<Binding>, key: Key, from: nat): (index: nat)
    requires from <= |bindings|
    ensures from <= index <= |bindings|
    ensures index < |bindings| ==> bindings[index].key == key
    ensures forall i :: from <= i < index ==> bindings[i].key != key
    decreases |bindings| - from
  {
    if from == |bindings| || bindings[from].key == key then from
    else FindFrom(bindings, key, from + 1)
  }

  function Find(bindings: seq<Binding>, key: Key): (index: nat)
    ensures index <= |bindings|
    ensures index < |bindings| <==> exists i :: 0 <= i < |bindings| && bindings[i].key == key
    ensures index < |bindings| ==> bindings[index].key == key
  {
    FindFrom(bindings, key, 0)
  }

  predicate Match(binding: Binding, wanted: ObjectRef, sequence: nat) {
    && binding.accepted
    && binding.key.sequence == sequence
    && (wanted == Original(binding.key.target) || wanted == ProxyOf(binding.id))
  }

  /** Exactly one accepted entry of this sequence stands for the target, and it is entry `id`. */
  predicate UniqueMatch(bindings: seq<Binding>, wanted: ObjectRef, sequence: nat, id: nat) {
    && 1 <= id <= |bindings|
    && Match(bindings[id - 1], wanted, sequence)
    && forall i :: 0 <= i < |bindings| && Match(bindings[i], wanted, sequence) ==> i == id - 1
  }

  predicate CacheOk(bindings: seq<Binding>) {
    && |bindings| <= BINDING_CAPACITY
    && (forall i :: 0 <= i < |bindings| ==> bindings[i].id == i + 1)
    && (forall i, j :: 0 <= i < j < |bindings| ==> bindings[i].key != bindings[j].key)
  }

  // ---- Steps ----

  /** One step of a run. The choices stand for what the native side returns. */
  datatype Step =
    | Start(kind: Kind)
    | Advance(call: nat, target: nat, flag: bool)
    | InstallerCommit
    | InstallerFail
    | InstallerDisable
    | InstallerReject

  function StartPc(kind: Kind): Pc {
    if kind.LookupCall? then LookupGate else AdmitRead
  }

  function AfterAdmission(kind: Kind): Pc {
    match kind
    case LifecycleCall => EnterRead
    case ExternalCall => Admitted
    case FactoryCall(_, _) => BeforeRead
    case LookupCall(_) => LookupGate
  }

  predicate Clean(before: nat, now: nat) { before == now && Flying(before) == 0 }

  /** Where a call goes next, given the shared state it reads in this step. */
  function NextPc(s: State, c: Call, target: nat, flag: bool): Pc {
    if c.pc.AdmitRead? || c.pc.AdmitSwap? then AdmitPc(s, c)
    else if c.kind.LifecycleCall? then LifecyclePc(s, c)
    else if c.kind.FactoryCall? then FactoryPc(s, c, target, flag)
    else if c.kind.LookupCall? then LookupPc(s, c, flag)
    else c.pc
  }

  function AdmitPc(s: State, c: Call): Pc {
    if c.pc.AdmitRead? then
      if s.gate == Armed then AfterAdmission(c.kind)
      else if !Qualifying(c.kind) || s.gate != Preparing then Refused
      else AdmitSwap
    else if s.gate == Preparing then Refused
    else AdmitRead
  }

  function LifecyclePc(s: State, c: Call): Pc {
    match c.pc
    case EnterRead => EnterSwap(s.lifecycle)
    case EnterSwap(seen) =>
      if Full(seen) then EnterUnknown
      else if s.lifecycle == seen then InNative(true)
      else EnterSwap(s.lifecycle)
    case EnterUnknown => InNative(false)
    case InNative(owned) => if owned then LeaveRead else Left(false)
    case LeaveRead => LeaveSwap(s.lifecycle)
    case LeaveSwap(seen) =>
      if Flying(seen) == 0 then LeaveUnderflow
      else if s.lifecycle == seen then Left(true)
      else LeaveSwap(s.lifecycle)
    case _ => c.pc
  }

  predicate Full(word: nat) { Entries(word) == HALF_MAX || Flying(word) == HALF_MAX }

  function FactoryPc(s: State, c: Call, target: nat, flag: bool): Pc
    requires c.kind.FactoryCall?
  {
    match c.pc
    case BeforeRead => InFactory(s.lifecycle)
    case InFactory(before) => AfterRead(before, target)
    case AfterRead(before, r) =>
      if c.kind.qualifies && r != 0 && Clean(before, s.lifecycle) then FirstUnknown(before, r)
      else ReturnedRaw
    case FirstUnknown(before, r) => if s.unknown then ReturnedRaw else FirstLookup(before, r)
    case FirstLookup(before, r) =>
      if s.lock != None then c.pc else
      var index := Find(s.bindings, Key(r, c.kind.user, Entries(before)));
      TakeLock(before, r, if index < |s.bindings| then s.bindings[index].accepted else flag)
    case TakeLock(before, r, valid) => if s.lock != None then c.pc else LockedRead(before, r, valid)
    case LockedRead(before, r, valid) =>
      if Clean(before, s.lifecycle) then LockedUnknown(before, r, valid) else ReturnedRaw
    case LockedUnknown(before, r, valid) =>
      if s.unknown then ReturnedRaw else LockedBind(before, r, valid)
    case LockedBind(before, r, valid) => BindPc(s, Key(r, c.kind.user, Entries(before)), before, valid)
    case _ => c.pc
  }

  /** Find or insert under the lock: the proxy of the key's entry, if that entry was accepted. */
  function BindPc(s: State, key: Key, before: nat, valid: bool): Pc {
    var index := Find(s.bindings, key);
    if index < |s.bindings| then
      if s.bindings[index].accepted then ReturnedProxy(before, key.target, s.bindings[index].id) else ReturnedRaw
    else if s.exhausted || |s.bindings| >= BINDING_CAPACITY || !valid then ReturnedRaw
    else ReturnedProxy(before, key.target, |s.bindings| + 1)
  }

  function LookupPc(s: State, c: Call, flag: bool): Pc
    requires c.kind.LookupCall?
  {
    match c.pc
    case LookupGate => if s.gate == Armed then LookupUnknown else LookupFailed
    case LookupUnknown => if s.unknown then LookupFailed else LookupBefore
    case LookupBefore => if Flying(s.lifecycle) != 0 then LookupFailed else LookupScan(s.lifecycle)
    case LookupScan(before) => ScanPc(s, c.kind.wanted, before, flag)
    case RecheckGate(before, id) => if s.gate == Armed then RecheckWord(before, id) else LookupFailed
    case RecheckWord(before, id) => if s.lifecycle == before then RecheckUnknown(before, id) else LookupFailed
    case RecheckUnknown(before, id) => if s.unknown then LookupFailed else LookupAccepted(before, id)
    case _ => c.pc
  }

  /** A bounded try-lock: `flag` says the attempt was refused although no writer holds the lock. */
  function ScanPc(s: State, wanted: ObjectRef, before: nat, flag: bool): Pc {
    var sequence := Entries(before);
    if flag || s.lock != None then LookupFailed
    else
      var first := FirstMatch(s.bindings, wanted, sequence, 0);
      if first == |s.bindings| || FirstMatch(s.bindings, wanted, sequence, first + 1) < |s.bindings|
      then LookupFailed
      else RecheckGate(before, first + 1)
  }

  /** What the same step of call `i` writes to the shared state. */
  function Effect(s: State, i: nat, c: Call): State {
    match c.pc
    case AdmitSwap => if s.gate == Preparing then s.(gate := Contaminated) else s
    case EnterSwap(seen) =>
      if !Full(seen) && s.lifecycle == seen then s.(lifecycle := seen + WORD_HALF + 1) else s
    case EnterUnknown => s.(unknown := true)
    case LeaveSwap(seen) =>
      if Flying(seen) == 0 then s.(unknown := true)
      else if s.lifecycle == seen then s.(lifecycle := seen - 1) else s
    case TakeLock(_, _, _) => if s.lock == None then s.(lock := Some(i)) else s
    case LockedRead(before, _, _) => if Clean(before, s.lifecycle) then s else s.(lock := None)
    case LockedUnknown(_, _, _) => if s.unknown then s.(lock := None) else s
    case LockedBind(before, r, valid) =>
      if c.kind.FactoryCall? then Bound(s, Key(r, c.kind.user, Entries(before)), valid).(lock := None) else s
    case _ => s
  }

  function Bound(s: State, key: Key, valid: bool): State {
    if Find(s.bindings, key) < |s.bindings| || s.exhausted then s
    else if |s.bindings| < BINDING_CAPACITY then
      s.(bindings := s.bindings + [Binding(key, |s.bindings| + 1, valid)])
    else s.(exhausted := true)
  }

  function Advanced(s: State, i: nat, target: nat, flag: bool): State
    requires i < |s.calls|
  {
    var c := s.calls[i];
    var t := Effect(s, i, c);
    t.(calls := s.calls[i := c.(pc := NextPc(s, c, target, flag))])
  }

  function FirstMatch(bindings: seq<Binding>, wanted: ObjectRef, sequence: nat, from: nat): (index: nat)
    requires from <= |bindings|
    ensures from <= index <= |bindings|
    ensures index < |bindings| ==> Match(bindings[index], wanted, sequence)
    ensures forall i :: from <= i < index ==> !Match(bindings[i], wanted, sequence)
    decreases |bindings| - from
  {
    if from == |bindings| || Match(bindings[from], wanted, sequence) then from
    else FirstMatch(bindings, wanted, sequence, from + 1)
  }

  function Apply(s: State, step: Step): State {
    match step
    case Start(kind) => s.(calls := s.calls + [Call(kind, StartPc(kind))])
    case Advance(i, target, flag) => if i < |s.calls| then Advanced(s, i, target, flag) else s
    case InstallerCommit =>
      if s.installer != Working then s
      else if s.gate == Preparing then s.(gate := Armed, installer := Finished)
      else s.(installer := Failing)
    case InstallerFail => if s.installer == Working then s.(installer := Failing) else s
    case InstallerDisable =>
      if s.installer == Failing then s.(gate := Disabled, installer := Finished) else s
    case InstallerReject => if s.installer == Working then s.(installer := Finished) else s
  }

  // ---- What one step may do to the shared state ----

  predicate GateRises(was: Gate, now: Gate) {
    was == now || was == Preparing || (was == Contaminated && now == Disabled)
  }

  /** Either an entry happened, or at most some entries left. */
  predicate WordEvolves(was: nat, now: nat) {
    || Entries(was) < Entries(now)
    || (Entries(was) == Entries(now) && Flying(now) <= Flying(was))
  }

  predicate Evolves(s: State, t: State) {
    && GateRises(s.gate, t.gate)
    && WordEvolves(s.lifecycle, t.lifecycle)
    && (s.unknown ==> t.unknown)
    && (s.exhausted ==> t.exhausted)
    && s.bindings <= t.bindings
    && |s.calls| <= |t.calls|
    && forall i :: 0 <= i < |s.calls| ==> s.calls[i].kind == t.calls[i].kind
  }

  // ---- Counting calls ----

  function Count(calls: seq<Call>, p: Call -> bool): nat {
    if calls == [] then 0 else (if p(calls[0]) then 1 else 0) + Count(calls[1..], p)
  }

  /** The call's Init or Shutdown was counted into the lifecycle word. */
  const Owned := (c: Call) =>
    c.pc == InNative(true) || c.pc.LeaveRead? || c.pc.LeaveSwap? || c.pc == Left(true)

  /** ... and has not been counted out again. */
  const Active := (c: Call) => c.pc == InNative(true) || c.pc.LeaveRead? || c.pc.LeaveSwap?

  /** A native Init or Shutdown of an admitted call is running. */
  predicate NativeRunning(s: State) {
    exists i :: 0 <= i < |s.calls| && s.calls[i].pc.InNative?
  }

  lemma {:induction false} CountUpdate(calls: seq<Call>, i: nat, c: Call, p: Call -> bool)
    requires i < |calls|
    ensures Count(calls[i := c], p) + (if p(calls[i]) then 1 else 0)
         == Count(calls, p) + (if p(c) then 1 else 0)
  {
    if i == 0 {
      assert calls[i := c][1..] == calls[1..];
    } else {
      assert calls[i := c][1..] == calls[1..][i - 1 := c];
      CountUpdate(calls[1..], i - 1, c, p);
    }
  }

  lemma {:induction false} CountAppend(calls: seq<Call>, c: Call, p: Call -> bool)
    ensures Count(calls + [c], p) == Count(calls, p) + (if p(c) then 1 else 0)
  {
    if calls == [] {
      assert calls + [c] == [c];
      assert [c][1..] == [];
    } else {
      assert (calls + [c])[1..] == calls[1..] + [c];
      CountAppend(calls[1..], c, p);
    }
  }

  lemma {:induction false} CountMember(calls: seq<Call>, i: nat, p: Call -> bool)
    requires i < |calls| && p(calls[i])
    ensures Count(calls, p) >= 1
  {
    if i > 0 {
      CountMember(calls[1..], i - 1, p);
    }
  }

  lemma {:induction false} ActiveAtMostOwned(calls: seq<Call>)
    ensures Count(calls, Active) <= Count(calls, Owned)
  {
    if calls != [] {
      ActiveAtMostOwned(calls[1..]);
    }
  }

  // ---- The invariant ----

  /** The pc of a call lies past an admission that saw the gate Armed. */
  predicate PastAdmission(c: Call) {
    !(c.kind.LookupCall? || c.pc.AdmitRead? || c.pc.AdmitSwap? || c.pc.Refused?)
  }

  predicate KindFits(c: Call) {
    match c.pc
    case AdmitRead | AdmitSwap | Refused => !c.kind.LookupCall?
    case Admitted => c.kind.ExternalCall?
    case EnterRead | EnterSwap(_) | EnterUnknown | InNative(_) | LeaveRead | LeaveSwap(_)
       | Left(_) | LeaveUnderflow => c.kind.LifecycleCall?
    case BeforeRead | InFactory(_) | AfterRead(_, _) | FirstUnknown(_, _) | FirstLookup(_, _)
       | TakeLock(_, _, _) | LockedRead(_, _, _) | LockedUnknown(_, _, _) | LockedBind(_, _, _)
       | ReturnedRaw | ReturnedProxy(_, _, _) => c.kind.FactoryCall?
    case _ => c.kind.LookupCall?
  }

  predicate InLock(pc: Pc) { pc.LockedRead? || pc.LockedUnknown? || pc.LockedBind? }

  /** What is true of one call; every clause is stable under `Evolves`. */
  predicate CallOk(s: State, c: Call) {
    && KindFits(c)
    && (c.pc.Refused? && Qualifying(c.kind) ==> s.gate == Contaminated || s.gate == Disabled)
    && (c.pc.AdmitSwap? ==> Qualifying(c.kind))
    && (PastAdmission(c) ==> s.gate == Armed)
    && (c.pc.LeaveSwap? ==> Flying(c.pc.seen) >= 1)
    && !c.pc.LeaveUnderflow?
    && ((c.pc == InNative(false) || c.pc == Left(false)) ==> s.unknown)
    && (c.pc.ReturnedProxy? ==>
          && 1 <= c.pc.id <= |s.bindings|
          && s.bindings[c.pc.id - 1] ==
               Binding(Key(c.pc.target, c.kind.user, Entries(c.pc.before)), c.pc.id, true))
  }

  predicate GateOk(s: State) {
    && (s.installer != Finished ==> s.gate == Preparing || s.gate == Contaminated)
  }

  predicate WordOk(s: State) {
    && s.lifecycle == Count(s.calls, Owned) * WORD_HALF + Count(s.calls, Active)
    && Count(s.calls, Owned) <= HALF_MAX
  }

  predicate LockOk(s: State) {
    forall i :: 0 <= i < |s.calls| ==> (InLock(s.calls[i].pc) <==> s.lock == Some(i))
  }

  predicate Inv(s: State) {
    && GateOk(s)
    && WordOk(s)
    && CacheOk(s.bindings)
    && (s.exhausted ==> |s.bindings| == BINDING_CAPACITY)
    && LockOk(s)
    && (s.lock.Some? ==> s.lock.value < |s.calls|)
    && forall i :: 0 <= i < |s.calls| ==> CallOk(s, s.calls[i])
  }

  // ---- Every step keeps the invariant and evolves the shared state ----

  lemma WordHalves(s: State)
    requires WordOk(s)
    ensures Entries(s.lifecycle) == Count(s.calls, Owned)
    ensures Flying(s.lifecycle) == Count(s.calls, Active)
    ensures Flying(s.lifecycle) <= Entries(s.lifecycle) <= HALF_MAX
  {
    ActiveAtMostOwned(s.calls);
  }

  lemma CallStable(s: State, t: State, c: Call)
    requires CallOk(s, c) && Evolves(s, t)
    ensures CallOk(t, c)
  {
  }

  lemma KeepWord(s: State, t: State, i: nat)
    requires WordOk(s) && i < |s.calls| == |t.calls| && t.calls == s.calls[i := t.calls[i]]
    requires t.lifecycle - s.lifecycle
          == Weight(t.calls[i], Owned) * WORD_HALF + Weight(t.calls[i], Active)
           - Weight(s.calls[i], Owned) * WORD_HALF - Weight(s.calls[i], Active)
    requires Weight(t.calls[i], Owned) > Weight(s.calls[i], Owned) ==> Entries(s.lifecycle) < HALF_MAX
    ensures WordOk(t)
  {
    CountUpdate(s.calls, i, t.calls[i], Owned);
    CountUpdate(s.calls, i, t.calls[i], Active);
    WordHalves(s);
  }

  /** A step of call `i` that the shared state tolerates keeps the whole invariant. */
  lemma KeepInv(s: State, t: State, i: nat)
    requires Inv(s) && i < |s.calls| && Evolves(s, t)
    requires t.calls == s.calls[i := s.calls[i].(pc := t.calls[i].pc)]
    requires CallOk(t, t.calls[i])
    requires t.installer == s.installer && GateOk(t)
    requires CacheOk(t.bindings) && (t.exhausted ==> |t.bindings| == BINDING_CAPACITY)
    requires t.lock == if InLock(t.calls[i].pc) then Some(i) else if s.lock == Some(i) then None else s.lock
    requires InLock(t.calls[i].pc) ==> s.lock == None || s.lock == Some(i)
    requires t.lifecycle - s.lifecycle
          == Weight(t.calls[i], Owned) * WORD_HALF + Weight(t.calls[i], Active)
           - Weight(s.calls[i], Owned) * WORD_HALF - Weight(s.calls[i], Active)
    requires Weight(t.calls[i], Owned) > Weight(s.calls[i], Owned) ==> Entries(s.lifecycle) < HALF_MAX
    ensures Inv(t)
  {
    hide WordOk, Evolves, CallOk;
    KeepWord(s, t, i);
    forall j | 0 <= j < |t.calls|
      ensures CallOk(t, t.calls[j])
    {
      if j != i { CallStable(s, t, s.calls[j]); }
    }
  }

  function Weight(c: Call, p: Call -> bool): nat { if p(c) then 1 else 0 }

  /** A change of the shared state alone. */
  lemma KeepShared(s: State, t: State)
    requires Inv(s) && Evolves(s, t)
    requires t.calls == s.calls && t.lock == s.lock && t.lifecycle == s.lifecycle
    requires GateOk(t) && CacheOk(t.bindings)
    requires t.exhausted ==> |t.bindings| == BINDING_CAPACITY
    ensures Inv(t)
  {
    forall j | 0 <= j < |t.calls|
      ensures CallOk(t, t.calls[j])
    {
      CallStable(s, t, s.calls[j]);
    }
  }

  lemma EvolvesTransitive(s: State, t: State, u: State)
    requires Evolves(s, t) && Evolves(t, u)
    ensures Evolves(s, u)
  {
  }

  lemma CallAlwaysOk(s: State, i: nat)
    requires Inv(s) && i < |s.calls|
    ensures CallOk(s, s.calls[i])
  {
  }

  function Moved(s: State, i: nat, pc: Pc): State
    requires i < |s.calls|
  {
    s.(calls := s.calls[i := s.calls[i].(pc := pc)])
  }

  /** ... and one that only moves a program counter. */
  lemma KeepPc(s: State, i: nat, pc: Pc)
    requires Inv(s) && i < |s.calls|
    requires CallOk(s, s.calls[i].(pc := pc))
    requires InLock(pc) == InLock(s.calls[i].pc)
    requires Weight(s.calls[i].(pc := pc), Owned) == Weight(s.calls[i], Owned)
    requires Weight(s.calls[i].(pc := pc), Active) == Weight(s.calls[i], Active)
    ensures Inv(Moved(s, i, pc)) && Evolves(s, Moved(s, i, pc))
  {
    var t := Moved(s, i, pc);
    CallStable(s, t, s.calls[i].(pc := pc));
    KeepInv(s, t, i);
  }

  /** ... or takes or releases the cache lock as well. */
  lemma KeepLock(s: State, i: nat, pc: Pc)
    requires Inv(s) && i < |s.calls|
    requires CallOk(s, s.calls[i].(pc := pc)) && s.calls[i].kind.FactoryCall?
    requires InLock(pc) != InLock(s.calls[i].pc) && (InLock(pc) ==> s.lock == None)
    ensures var t := Moved(s, i, pc).(lock := if InLock(pc) then Some(i) else None); Inv(t) && Evolves(s, t)
  {
    var t := Moved(s, i, pc).(lock := if InLock(pc) then Some(i) else None);
    CallStable(s, t, s.calls[i].(pc := pc));
    assert CallOk(s, s.calls[i]);
    KeepInv(s, t, i);
  }

  lemma SwapGateKeeps(s: State, i: nat)
    requires Inv(s) && i < |s.calls| && s.calls[i].pc.AdmitSwap? && s.gate == Preparing
    ensures Inv(Advanced(s, i, 0, false)) && Evolves(s, Advanced(s, i, 0, false))
  {
    CallAlwaysOk(s, i);
    KeepInv(s, Advanced(s, i, 0, false), i);
  }

  lemma EntryKeeps(s: State, i: nat)
    requires Inv(s) && i < |s.calls| && s.calls[i].pc.EnterSwap?
    requires !Full(s.lifecycle) && s.calls[i].pc.seen == s.lifecycle
    ensures Inv(Advanced(s, i, 0, false)) && Evolves(s, Advanced(s, i, 0, false))
  {
    CallAlwaysOk(s, i);
    WordHalves(s);
    KeepInv(s, Advanced(s, i, 0, false), i);
  }

  lemma EnterKeeps(s: State, i: nat)
    requires Inv(s) && i < |s.calls| && s.calls[i].pc.EnterSwap?
    ensures Inv(Advanced(s, i, 0, false)) && Evolves(s, Advanced(s, i, 0, false))
  {
    hide Inv, Evolves;
    CallAlwaysOk(s, i);
    var seen := s.calls[i].pc.seen;
    if Full(seen) {
      KeepPc(s, i, EnterUnknown);
    } else if s.lifecycle != seen {
      KeepPc(s, i, EnterSwap(s.lifecycle));
    } else {
      EntryKeeps(s, i);
    }
  }

  lemma UnknownKeeps(s: State)
    requires Inv(s)
    ensures Inv(s.(unknown := true)) && Evolves(s, s.(unknown := true))
  {
    KeepShared(s, s.(unknown := true));
  }

  lemma OverflowKeeps(s: State, i: nat)
    requires Inv(s) && i < |s.calls| && s.calls[i].pc.EnterUnknown?
    ensures Inv(Advanced(s, i, 0, false)) && Evolves(s, Advanced(s, i, 0, false))
  {
    hide Inv, Evolves;
    CallAlwaysOk(s, i);
    var t := s.(unknown := true);
    UnknownKeeps(s);
    KeepPc(t, i, InNative(false));
    EvolvesTransitive(s, t, Moved(t, i, InNative(false)));
  }

  /** A call that is still counted in finds the low half nonzero. */
  lemma FlyingWhileActive(s: State, i: nat)
    requires Inv(s) && i < |s.calls| && Active(s.calls[i])
    ensures Flying(s.lifecycle) >= 1
  {
    WordHalves(s);
    CountMember(s.calls, i, Active);
  }

  lemma ExitKeeps(s: State, i: nat)
    requires Inv(s) && i < |s.calls| && s.calls[i].pc.LeaveSwap? && s.calls[i].pc.seen == s.lifecycle
    ensures Inv(Advanced(s, i, 0, false)) && Evolves(s, Advanced(s, i, 0, false))
  {
    CallAlwaysOk(s, i);
    FlyingWhileActive(s, i);
    KeepInv(s, Advanced(s, i, 0, false), i);
  }

  lemma LeaveKeeps(s: State, i: nat)
    requires Inv(s) && i < |s.calls| && (s.calls[i].pc.LeaveRead? || s.calls[i].pc.LeaveSwap?)
    ensures Inv(Advanced(s, i, 0, false)) && Evolves(s, Advanced(s, i, 0, false))
  {
    hide Inv, Evolves;
    CallAlwaysOk(s, i);
    FlyingWhileActive(s, i);
    if s.calls[i].pc.LeaveRead? || s.lifecycle != s.calls[i].pc.seen {
      KeepPc(s, i, LeaveSwap(s.lifecycle));
    } else {
      ExitKeeps(s, i);
    }
  }

  lemma LifecycleKeeps(s: State, i: nat, target: nat, flag: bool)
    requires Inv(s) && i < |s.calls| && s.calls[i].kind.LifecycleCall?
    requires !s.calls[i].pc.AdmitRead? && !s.calls[i].pc.AdmitSwap?
    ensures Inv(Advanced(s, i, target, flag)) && Evolves(s, Advanced(s, i, target, flag))
  {
    hide Inv, Evolves;
    var c := s.calls[i];
    assert Advanced(s, i, target, flag) == Advanced(s, i, 0, false);
    CallAlwaysOk(s, i);
    if c.pc.EnterSwap? { EnterKeeps(s, i); }
    else if c.pc.EnterUnknown? { OverflowKeeps(s, i); }
    else if c.pc.LeaveRead? || c.pc.LeaveSwap? { LeaveKeeps(s, i); }
    else { KeepPc(s, i, LifecyclePc(s, c)); }
  }

  lemma BoundKeeps(s: State, key: Key, valid: bool)
    requires Inv(s)
    ensures Inv(Bound(s, key, valid)) && Evolves(s, Bound(s, key, valid))
  {
    KeepShared(s, Bound(s, key, valid));
  }

  lemma BindPcOk(s: State, c: Call, key: Key, before: nat, valid: bool)
    requires Inv(s) && CallOk(s, c) && c.pc.LockedBind?
    requires key.user == c.kind.user && key.sequence == Entries(before)
    ensures CallOk(Bound(s, key, valid), c.(pc := BindPc(s, key, before, valid)))
  {
  }

  lemma BindKeeps(s: State, i: nat)
    requires Inv(s) && i < |s.calls| && s.calls[i].kind.FactoryCall? && s.calls[i].pc.LockedBind?
    ensures Inv(Advanced(s, i, 0, false)) && Evolves(s, Advanced(s, i, 0, false))
  {
    hide Inv, Evolves;
    var LockedBind(before, target, valid) := s.calls[i].pc;
    var key := Key(target, s.calls[i].kind.user, Entries(before));
    var t := Bound(s, key, valid);
    var pc := BindPc(s, key, before, valid);
    CallAlwaysOk(s, i);
    BoundKeeps(s, key, valid);
    BindPcOk(s, s.calls[i], key, before, valid);
    KeepLock(t, i, pc);
    EvolvesTransitive(s, t, Moved(t, i, pc).(lock := None));
  }

  lemma LockKeeps(s: State, i: nat)
    requires Inv(s) && i < |s.calls| && s.calls[i].kind.FactoryCall?
    requires s.calls[i].pc.TakeLock? || s.calls[i].pc.LockedRead? || s.calls[i].pc.LockedUnknown?
    ensures Inv(Advanced(s, i, 0, false)) && Evolves(s, Advanced(s, i, 0, false))
  {
    hide Inv, Evolves;
    var c := s.calls[i];
    CallAlwaysOk(s, i);
    var pc := FactoryPc(s, c, 0, false);
    if InLock(pc) == InLock(c.pc) { KeepPc(s, i, pc); } else { KeepLock(s, i, pc); }
  }

  lemma FactoryKeeps(s: State, i: nat, target: nat, flag: bool)
    requires Inv(s) && i < |s.calls| && s.calls[i].kind.FactoryCall?
    requires !s.calls[i].pc.AdmitRead? && !s.calls[i].pc.AdmitSwap?
    ensures Inv(Advanced(s, i, target, flag)) && Evolves(s, Advanced(s, i, target, flag))
  {
    hide Inv, Evolves;
    var c := s.calls[i];
    CallAlwaysOk(s, i);
    if c.pc.LockedBind? {
      BindKeeps(s, i);
    } else if c.pc.TakeLock? || c.pc.LockedRead? || c.pc.LockedUnknown? {
      LockKeeps(s, i);
    } else {
      KeepPc(s, i, FactoryPc(s, c, target, flag));
    }
  }

  lemma LookupKeeps(s: State, i: nat, flag: bool)
    requires Inv(s) && i < |s.calls| && s.calls[i].kind.LookupCall?
    ensures Inv(Advanced(s, i, 0, flag)) && Evolves(s, Advanced(s, i, 0, flag))
  {
    hide Inv, Evolves;
    CallAlwaysOk(s, i);
    KeepPc(s, i, LookupPc(s, s.calls[i], flag));
  }

  lemma AdmitKeeps(s: State, i: nat)
    requires Inv(s) && i < |s.calls| && (s.calls[i].pc.AdmitRead? || s.calls[i].pc.AdmitSwap?)
    ensures Inv(Advanced(s, i, 0, false)) && Evolves(s, Advanced(s, i, 0, false))
  {
    hide Inv, Evolves;
    var c := s.calls[i];
    CallAlwaysOk(s, i);
    if c.pc.AdmitSwap? && s.gate == Preparing { SwapGateKeeps(s, i); }
    else { KeepPc(s, i, AdmitPc(s, c)); }
  }

  lemma AdvanceKeeps(s: State, i: nat, target: nat, flag: bool)
    requires Inv(s) && i < |s.calls|
    ensures Inv(Advanced(s, i, target, flag)) && Evolves(s, Advanced(s, i, target, flag))
  {
    hide Inv, Evolves;
    var c := s.calls[i];
    CallAlwaysOk(s, i);
    if c.pc.AdmitRead? || c.pc.AdmitSwap? { AdmitKeeps(s, i); }
    else if c.kind.LifecycleCall? { LifecycleKeeps(s, i, target, flag); }
    else if c.kind.FactoryCall? { FactoryKeeps(s, i, target, flag); }
    else if c.kind.LookupCall? { LookupKeeps(s, i, flag); }
    else { KeepPc(s, i, c.pc); }
  }

  lemma StartKeeps(s: State, kind: Kind)
    requires Inv(s)
    ensures Inv(Apply(s, Start(kind))) && Evolves(s, Apply(s, Start(kind)))
  {
    var t := Apply(s, Start(kind));
    forall j | 0 <= j < |s.calls|
      ensures CallOk(t, s.calls[j])
    {
      CallStable(s, t, s.calls[j]);
    }
    var c := Call(kind, StartPc(kind));
    CountAppend(s.calls, c, Owned);
    CountAppend(s.calls, c, Active);
  }

  lemma StepKeeps(s: State, step: Step)
    requires Inv(s)
    ensures Inv(Apply(s, step)) && Evolves(s, Apply(s, step))
  {
    match step
    case Start(kind) => StartKeeps(s, kind);
    case Advance(i, target, flag) =>
      if i < |s.calls| { AdvanceKeeps(s, i, target, flag); }
    case _ =>
      InstallerKeeps(s, step);
  }

  lemma InstallerKeeps(s: State, step: Step)
    requires Inv(s) && !step.Start? && !step.Advance?
    ensures Inv(Apply(s, step)) && Evolves(s, Apply(s, step))
  {
    var t := Apply(s, step);
    forall j | 0 <= j < |t.calls|
      ensures CallOk(t, t.calls[j])
    {
      CallStable(s, t, s.calls[j]);
    }
  }

  lemma InitialOk()
    ensures Inv(INITIAL)
  {
  }
}
