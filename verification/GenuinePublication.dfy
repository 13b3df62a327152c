/** Publication of the genuine audio module: concurrent acquirers race for the one-time normal
    record, fall back to an embedded record, or keep a private lease. Every loader reference is
    owned by exactly one of them, by a published record, or was given back.

    Calls are program counters; one step is one atomic access or one native call, so a run is
    any interleaving. A dispatch is named by its module; 0 is an incomplete dispatch.
 */
module GenuinePublication {

  import opened Options

  /** The one-time initialization object. */
  datatype Once = Uninitialized | Pending | CompleteRecord(record: nat) | CompleteFallback

  datatype FallbackState = Empty | Writing | Ready

  datatype Ref = RecordRef(record: nat) | FallbackRef

  /** From where in an acquisition the published dispatches are looked up. */
  datatype Site =
    | Start
    | Retry(begun: bool)
    | AfterFailure(begun: bool, attempt: nat, retryable: bool)
    | Publishing(begun: bool, own: nat)
    | Rejected(own: nat, record: nat)            // the one-time completion was refused
    | Republishing(own: nat)
    | Losing(own: nat)                           // another caller claimed the fallback

  datatype Pc =
    | CheckNormal(site: Site)
    | ReadNormal(site: Site, ref: Ref)
    | CheckFallback(site: Site)
    | ReadFallback(site: Site)
    | BeginOnce
    | ReadBegun(ref: Ref)
    | Resolve(begun: bool, attempt: nat)
    | Reject(begun: bool, attempt: nat, own: nat, retryable: bool)
    | Allocate(own: nat)
    | Complete(own: nat, record: nat)
    | DropRecord(own: nat, record: nat, found: Option<nat>)
    | FreeOwn(own: nat, winner: nat)
    | ClaimFallback(own: nat)
    | WriteFallback(own: nat)
    | ReadyFallback(own: nat)
    | FinishFallback(published: nat)
    | Persistent(lease: nat)
    | Private(own: nat)
    | Failed
    | Released

  datatype State = State(
    bootstrap: nat,
    once: Once,
    records: seq<nat>,                           // the module in each record ever allocated
    dropped: multiset<nat>,                      // records freed again
    fallbackState: FallbackState,
    fallback: nat,
    loads: multiset<nat>,
    frees: multiset<nat>,
    selfHandles: nat,                            // loads that resolved to the bootstrap itself
    calls: seq<Pc>)

  /** What the native side answers in one step. */
  datatype Choice = Choice(ok: bool, aligned: bool, retryable: bool, loaded: nat)

  datatype Step = Acquire | Advance(call: nat, choice: Choice)

  function Initial(bootstrap: nat): State {
    State(bootstrap, Uninitialized, [], multiset{}, Empty, 0, multiset{}, multiset{}, 0, [])
  }

  // ---- Steps ----

  function Payload(s: State, ref: Ref): nat {
    match ref
    case RecordRef(r) => if r < |s.records| then s.records[r] else 0
    case FallbackRef => s.fallback
  }

  function Found(site: Site, winner: nat): Pc {
    match site
    case Publishing(_, own) => FreeOwn(own, winner)
    case Republishing(own) => FreeOwn(own, winner)
    case Losing(own) => FreeOwn(own, winner)
    case Rejected(own, record) => DropRecord(own, record, Some(winner))
    case _ => Persistent(winner)
  }

  function NoNormal(site: Site): Pc {
    if site.Rejected? then DropRecord(site.own, site.record, None) else CheckFallback(site)
  }

  function NotFound(site: Site): Pc {
    match site
    case Start => BeginOnce
    case Retry(begun) => Resolve(begun, 1)
    case AfterFailure(begun, attempt, retryable) =>
      if retryable && attempt == 0 then CheckNormal(Retry(begun)) else Failed
    case Publishing(begun, own) => if begun then Allocate(own) else CheckNormal(Republishing(own))
    case Rejected(own, record) => DropRecord(own, record, None)
    case Republishing(own) => ClaimFallback(own)
    case Losing(own) => Private(own)
  }

  /** Where the call goes; the second half of the step is `Effect`. */
  function NextPc(s: State, pc: Pc, c: Choice): Pc {
    match pc
    case CheckNormal(site) =>
      if c.ok && s.once.CompleteRecord? then ReadNormal(site, RecordRef(s.once.record))
      else if c.ok && s.once.CompleteFallback? then ReadNormal(site, FallbackRef)
      else NoNormal(site)
    case ReadNormal(site, ref) => if Payload(s, ref) != 0 then Found(site, Payload(s, ref)) else NoNormal(site)
    case CheckFallback(site) => if s.fallbackState == Ready then ReadFallback(site) else NotFound(site)
    case ReadFallback(site) => if s.fallback != 0 then Found(site, s.fallback) else NotFound(site)
    case BeginOnce =>
      if !c.ok then Resolve(false, 0)
      else if s.once.CompleteRecord? then ReadBegun(RecordRef(s.once.record))
      else if s.once.CompleteFallback? then ReadBegun(FallbackRef)
      else Resolve(true, 0)
    case ReadBegun(ref) => if Payload(s, ref) != 0 then Persistent(Payload(s, ref)) else Resolve(false, 0)
    case Resolve(begun, attempt) =>
      if c.loaded == 0 then CheckNormal(AfterFailure(begun, attempt, true))
      else if c.loaded == s.bootstrap then CheckNormal(AfterFailure(begun, attempt, false))
      else if c.ok then CheckNormal(Publishing(begun, c.loaded))
      else Reject(begun, attempt, c.loaded, c.retryable)
    case Reject(begun, attempt, _, retryable) => CheckNormal(AfterFailure(begun, attempt, retryable))
    case Allocate(own) =>
      if !c.ok then CheckNormal(Republishing(own))
      else if c.aligned then Complete(own, |s.records|)
      else DropRecord(own, |s.records|, None)
    case Complete(own, record) =>
      if c.ok && s.once == Pending then Persistent(own) else CheckNormal(Rejected(own, record))
    case DropRecord(own, _, found) =>
      if found.Some? then FreeOwn(own, found.value) else CheckNormal(Republishing(own))
    case FreeOwn(_, winner) => Persistent(winner)
    case ClaimFallback(own) =>
      if s.fallbackState == Empty then WriteFallback(own) else CheckFallback(Losing(own))
    case WriteFallback(own) => ReadyFallback(own)
    case ReadyFallback(own) => FinishFallback(own)
    case FinishFallback(_) => Persistent(s.fallback)
    case Private(_) => Released
    case _ => pc
  }

  function Effect(s: State, pc: Pc, c: Choice): State {
    match pc
    case BeginOnce => if c.ok && s.once == Uninitialized then s.(once := Pending) else s
    case Resolve(_, _) =>
      if c.loaded == 0 then s
      else
        s.(loads := s.loads + multiset{c.loaded},
           selfHandles := s.selfHandles + if c.loaded == s.bootstrap then 1 else 0)
    case Reject(_, _, own, _) => s.(frees := s.frees + multiset{own})
    case Allocate(own) =>
      if c.ok then s.(records := s.records + [if c.aligned then own else 0]) else s
    case Complete(_, record) => if c.ok && s.once == Pending then s.(once := CompleteRecord(record)) else s
    case DropRecord(_, record, _) => s.(dropped := s.dropped + multiset{record})
    case FreeOwn(own, _) => s.(frees := s.frees + multiset{own})
    case ClaimFallback(_) => if s.fallbackState == Empty then s.(fallbackState := Writing) else s
    case WriteFallback(own) => s.(fallback := own)
    case ReadyFallback(_) => s.(fallbackState := Ready)
    case FinishFallback(_) => if c.ok && s.once == Pending then s.(once := CompleteFallback) else s
    case Private(own) => s.(frees := s.frees + multiset{own})
    case _ => s
  }

  function Apply(s: State, step: Step): State {
    match step
    case Acquire => s.(calls := s.calls + [CheckNormal(Start)])
    case Advance(i, c) =>
      if i < |s.calls| then
        Effect(s, s.calls[i], c).(calls := s.calls[i := NextPc(s, s.calls[i], c)])
      else s
  }

  // ---- Ledgers ----

  function SiteOwn(site: Site): nat {
    if site.Publishing? || site.Rejected? || site.Republishing? || site.Losing? then site.own else 0
  }

  /** The module whose loader reference a call would have to give back or hand over, or 0. */
  function OwnOf(pc: Pc): nat {
    match pc
    case CheckNormal(site) => SiteOwn(site)
    case ReadNormal(site, _) => SiteOwn(site)
    case CheckFallback(site) => SiteOwn(site)
    case ReadFallback(site) => SiteOwn(site)
    case Reject(_, _, own, _) => own
    case Allocate(own) => own
    case Complete(own, _) => own
    case DropRecord(own, _, _) => own
    case FreeOwn(own, _) => own
    case ClaimFallback(own) => own
    case WriteFallback(own) => own
    case ReadyFallback(own) => own
    case Private(own) => own
    case _ => 0
  }

  function SiteHolds(site: Site): Option<nat> {
    if site.Rejected? then Some(site.record) else None
  }

  /** The unpublished record a call holds. */
  function RecordOf(pc: Pc): Option<nat> {
    match pc
    case CheckNormal(site) => SiteHolds(site)
    case ReadNormal(site, _) => SiteHolds(site)
    case CheckFallback(site) => SiteHolds(site)
    case ReadFallback(site) => SiteHolds(site)
    case Complete(_, record) => Some(record)
    case DropRecord(_, record, _) => Some(record)
    case _ => None
  }

  /** What is counted over all calls: references to a module, holders of a record, fallback writers. */
  datatype Ledger = OfModule(m: nat) | OfRecord(r: nat) | OfWriter

  function Share(ledger: Ledger, pc: Pc): nat {
    match ledger
    case OfModule(m) => if m != 0 && OwnOf(pc) == m then 1 else 0
    case OfRecord(r) => if RecordOf(pc) == Some(r) then 1 else 0
    case OfWriter => if pc.WriteFallback? || pc.ReadyFallback? then 1 else 0
  }

  function Total(calls: seq<Pc>, ledger: Ledger): nat {
    if calls == [] then 0 else Share(ledger, calls[0]) + Total(calls[1..], ledger)
  }

  /** References of a module that were given back, are owned by a call, are retained by one of
      the two records, or are the bootstrap's own handles. */
  function Accounted(s: State, m: nat, owned: nat): nat {
    s.frees[m] + owned
    + (if s.once.CompleteRecord? && s.once.record < |s.records| && s.records[s.once.record] == m then 1 else 0)
    + (if s.fallbackState == Ready && s.fallback == m then 1 else 0)
    + (if m == s.bootstrap then s.selfHandles else 0)
  }

  ghost predicate ModuleBalances(s: State, m: nat) {
    s.loads[m] == Accounted(s, m, Total(s.calls, OfModule(m)))
  }

  /** Places where a record is: held by calls, published, or freed. */
  function Places(s: State, r: nat, held: nat): nat {
    held + (if s.once == CompleteRecord(r) then 1 else 0) + s.dropped[r]
  }

  ghost predicate RecordBalances(s: State, r: nat) {
    Places(s, r, Total(s.calls, OfRecord(r))) == if r < |s.records| then 1 else 0
  }

  ghost predicate OneWriter(s: State) {
    Total(s.calls, OfWriter) == if s.fallbackState == Writing then 1 else 0
  }

  lemma {:induction false} TotalUpdate(calls: seq<Pc>, i: nat, pc: Pc, ledger: Ledger)
    requires i < |calls|
    ensures Total(calls[i := pc], ledger) + Share(ledger, calls[i]) == Total(calls, ledger) + Share(ledger, pc)
  {
    hide Share;
    if i == 0 {
      assert calls[i := pc][1..] == calls[1..];
    } else {
      assert calls[i := pc][1..] == calls[1..][i - 1 := pc];
      TotalUpdate(calls[1..], i - 1, pc, ledger);
    }
  }

  lemma {:induction false} TotalAppend(calls: seq<Pc>, pc: Pc, ledger: Ledger)
    ensures Total(calls + [pc], ledger) == Total(calls, ledger) + Share(ledger, pc)
  {
    hide Share;
    if calls == [] {
      assert calls + [pc] == [pc] && [pc][1..] == [];
    } else {
      assert (calls + [pc])[1..] == calls[1..] + [pc];
      TotalAppend(calls[1..], pc, ledger);
    }
  }

  lemma {:induction false} TotalMember(calls: seq<Pc>, i: nat, ledger: Ledger)
    requires i < |calls|
    ensures Share(ledger, calls[i]) <= Total(calls, ledger)
  {
    hide Share;
    if i > 0 {
      TotalMember(calls[1..], i - 1, ledger);
    }
  }

  lemma {:induction false} TotalTwo(calls: seq<Pc>, i: nat, j: nat, ledger: Ledger)
    requires i < j < |calls|
    ensures Share(ledger, calls[i]) + Share(ledger, calls[j]) <= Total(calls, ledger)
  {
    hide Share;
    if i == 0 {
      TotalMember(calls[1..], j - 1, ledger);
    } else {
      TotalTwo(calls[1..], i - 1, j - 1, ledger);
    }
  }

  // ---- The invariant ----

  /** A record retains this module for the life of the process. */
  predicate Retained(s: State, m: nat) {
    || (s.once.CompleteRecord? && s.once.record < |s.records| && s.records[s.once.record] == m)
    || (s.fallbackState == Ready && s.fallback == m)
  }

  predicate RefOk(s: State, ref: Ref) {
    match ref
    case RecordRef(r) => s.once == CompleteRecord(r)
    case FallbackRef => s.once == CompleteFallback
  }

  predicate Loadable(s: State, m: nat) { m != 0 && m != s.bootstrap }

  predicate SiteOk(s: State, site: Site) {
    && (site.Publishing? || site.Rejected? || site.Republishing? || site.Losing? ==> Loadable(s, site.own))
    && (site.Rejected? ==> site.record < |s.records| && s.records[site.record] == site.own)
    && (site.AfterFailure? ==> site.attempt <= 1)
  }

  predicate CallOk(s: State, pc: Pc) {
    match pc
    case CheckNormal(site) => SiteOk(s, site) && !site.Losing?
    case ReadNormal(site, ref) => SiteOk(s, site) && RefOk(s, ref) && !site.Losing?
    case CheckFallback(site) => SiteOk(s, site) && !site.Rejected?
    case ReadFallback(site) => SiteOk(s, site) && s.fallbackState == Ready && !site.Rejected?
    case ReadBegun(ref) => RefOk(s, ref)
    case Resolve(_, attempt) => attempt <= 1
    case Reject(_, attempt, own, _) => attempt <= 1 && Loadable(s, own)
    case Allocate(own) => Loadable(s, own)
    case Complete(own, record) => Loadable(s, own) && record < |s.records| && s.records[record] == own
    case DropRecord(own, record, found) =>
      Loadable(s, own) && record < |s.records| && (found.Some? ==> Retained(s, found.value))
    case FreeOwn(own, winner) => Loadable(s, own) && Retained(s, winner)
    case ClaimFallback(own) => Loadable(s, own)
    case WriteFallback(own) => Loadable(s, own) && s.fallbackState == Writing
    case ReadyFallback(own) => Loadable(s, own) && s.fallbackState == Writing && s.fallback == own
    case FinishFallback(published) => s.fallbackState == Ready && s.fallback == published
    case Persistent(lease) => Retained(s, lease)
    case Private(own) => Loadable(s, own)
    case _ => true
  }

  predicate SharedOk(s: State) {
    && (s.once.CompleteRecord? ==> s.once.record < |s.records| && Loadable(s, s.records[s.once.record]))
    && (s.once.CompleteFallback? ==> s.fallbackState == Ready)
    && (s.fallbackState == Ready ==> Loadable(s, s.fallback))
    && s.bootstrap != 0
  }

  ghost predicate Inv(s: State) {
    && SharedOk(s)
    && OneWriter(s)
    && (forall m: nat :: m != 0 ==> ModuleBalances(s, m))
    && (forall r: nat :: RecordBalances(s, r))
    && forall i :: 0 <= i < |s.calls| ==> CallOk(s, s.calls[i])
  }

  /** What no step undoes: a published record is published for good and never rewritten. */
  predicate Evolves(s: State, t: State) {
    && s.bootstrap == t.bootstrap
    && s.records <= t.records
    && (s.once.CompleteRecord? || s.once.CompleteFallback? ==> t.once == s.once)
    && (s.fallbackState == Ready ==> t.fallbackState == Ready && t.fallback == s.fallback)
    && (s.fallbackState == Writing ==> t.fallbackState != Empty)
    && |s.calls| <= |t.calls|
    && s.loads <= t.loads && s.frees <= t.frees
  }

  lemma InitialOk(bootstrap: nat)
    requires bootstrap != 0
    ensures Inv(Initial(bootstrap))
  {
  }

  /** What one call's step leaves as it was for the others. */
  predicate Undisturbed(s: State, t: State, pc: Pc) {
    pc.WriteFallback? || pc.ReadyFallback? ==> t.fallbackState == s.fallbackState && t.fallback == s.fallback
  }

  lemma CallStays(s: State, t: State, pc: Pc)
    requires Evolves(s, t) && CallOk(s, pc) && SharedOk(s) && Undisturbed(s, t, pc)
    ensures CallOk(t, pc)
  {
  }

  lemma EvolvesTransitive(s: State, t: State, u: State)
    requires Evolves(s, t) && Evolves(t, u)
    ensures Evolves(s, u)
  {
  }

  lemma StepEvolves(s: State, step: Step)
    requires SharedOk(s) && forall i :: 0 <= i < |s.calls| ==> CallOk(s, s.calls[i])
    ensures Evolves(s, Apply(s, step))
  {
    if step.Advance? && step.call < |s.calls| {
      assert CallOk(s, s.calls[step.call]);
    }
  }

  predicate IsLookup(pc: Pc) {
    pc.CheckNormal? || pc.ReadNormal? || pc.CheckFallback? || pc.ReadFallback?
  }

  /** The mover's own step keeps the shared part ... */
  lemma EffectOk(s: State, pc: Pc, c: Choice)
    requires SharedOk(s) && CallOk(s, pc)
    ensures SharedOk(Effect(s, pc, c))
  {
  }

  /** ... and brings the call to a place whose condition holds. */
  lemma LookupOk(s: State, pc: Pc, c: Choice)
    requires SharedOk(s) && CallOk(s, pc)
    requires IsLookup(pc)
    ensures CallOk(s, NextPc(s, pc, c)) && Effect(s, pc, c) == s
  {
    match pc
    case CheckNormal(site) => NoNormalOk(s, site);
    case ReadNormal(site, ref) =>
      NoNormalOk(s, site);
      if Payload(s, ref) != 0 { FoundOk(s, site, Payload(s, ref)); }
    case CheckFallback(site) => NotFoundOk(s, site);
    case ReadFallback(site) =>
      NotFoundOk(s, site);
      if s.fallback != 0 { FoundOk(s, site, s.fallback); }
  }

  lemma FoundOk(s: State, site: Site, winner: nat)
    requires SiteOk(s, site) && Retained(s, winner)
    ensures CallOk(s, Found(site, winner))
  {
  }

  lemma NoNormalOk(s: State, site: Site)
    requires SiteOk(s, site)
    ensures CallOk(s, NoNormal(site))
  {
  }

  lemma NotFoundOk(s: State, site: Site)
    requires SiteOk(s, site)
    ensures CallOk(s, NotFound(site))
  {
  }

  lemma MoveOk(s: State, pc: Pc, c: Choice)
    requires SharedOk(s) && CallOk(s, pc)
    requires !IsLookup(pc)
    ensures CallOk(Effect(s, pc, c), NextPc(s, pc, c))
  {
  }

  lemma CallsDoNotMatter(s: State, calls: seq<Pc>, pc: Pc)
    ensures CallOk(s.(calls := calls), pc) == CallOk(s, pc)
    ensures SharedOk(s.(calls := calls)) == SharedOk(s)
  {
  }

  lemma MoverOk(s: State, i: nat, c: Choice)
    requires i < |s.calls| && SharedOk(s) && CallOk(s, s.calls[i])
    ensures SharedOk(Apply(s, Advance(i, c)))
    ensures CallOk(Apply(s, Advance(i, c)), Apply(s, Advance(i, c)).calls[i])
  {
    hide CallOk, SharedOk, Effect, NextPc;
    var pc := s.calls[i];
    EffectOk(s, pc, c);
    if IsLookup(pc) {
      LookupOk(s, pc, c);
    } else {
      MoveOk(s, pc, c);
    }
    CallsDoNotMatter(Effect(s, pc, c), s.calls[i := NextPc(s, pc, c)], NextPc(s, pc, c));
  }

  lemma OthersUndisturbed(s: State, i: nat, c: Choice, j: nat)
    requires Inv(s) && i < |s.calls| && j < |s.calls| && i != j
    ensures Undisturbed(s, Apply(s, Advance(i, c)), s.calls[j])
  {
    assert CallOk(s, s.calls[i]) && CallOk(s, s.calls[j]);
    if s.calls[j].WriteFallback? || s.calls[j].ReadyFallback? {
      TotalTwo(s.calls, if i < j then i else j, if i < j then j else i, OfWriter);
    }
  }

  lemma KeepCalls(s: State, step: Step)
    requires Inv(s)
    ensures SharedOk(Apply(s, step))
    ensures forall i :: 0 <= i < |Apply(s, step).calls| ==> CallOk(Apply(s, step), Apply(s, step).calls[i])
  {
    var t := Apply(s, step);
    StepEvolves(s, step);
    if step.Advance? && step.call < |s.calls| {
      MoverOk(s, step.call, step.choice);
    }
    forall i | 0 <= i < |t.calls|
      ensures CallOk(t, t.calls[i])
    {
      if i < |s.calls| && !(step.Advance? && i == step.call) {
        assert CallOk(s, s.calls[i]);
        if step.Advance? && step.call < |s.calls| { OthersUndisturbed(s, step.call, step.choice, i); }
        CallStays(s, t, s.calls[i]);
      }
    }
  }

  /** What one step moves between the two sides of the module ledger. */
  lemma ModuleMoves(s: State, pc: Pc, c: Choice, m: nat)
    requires SharedOk(s) && CallOk(s, pc) && m != 0
    ensures Effect(s, pc, c).loads[m] + Accounted(s, m, Share(OfModule(m), pc))
         == s.loads[m] + Accounted(Effect(s, pc, c), m, Share(OfModule(m), NextPc(s, pc, c)))
  {
    if IsLookup(pc) {
      LookupKeepsOwn(s, pc, c);
    } else if HandsOver(pc) {
      HandOver(s, pc, c, m);
    } else if Loses(pc) {
      LoserModuleMoves(s, pc, c, m);
    } else {
      OtherModuleMoves(s, pc, c, m);
    }
  }

  lemma LookupKeepsOwn(s: State, pc: Pc, c: Choice)
    requires CallOk(s, pc) && IsLookup(pc)
    ensures Effect(s, pc, c) == s && OwnOf(NextPc(s, pc, c)) == OwnOf(pc)
  {
  }

  lemma OtherModuleMoves(s: State, pc: Pc, c: Choice, m: nat)
    requires SharedOk(s) && CallOk(s, pc) && m != 0 && !IsLookup(pc) && !HandsOver(pc) && !Loses(pc)
    ensures Effect(s, pc, c).loads[m] + Accounted(s, m, Share(OfModule(m), pc))
         == s.loads[m] + Accounted(Effect(s, pc, c), m, Share(OfModule(m), NextPc(s, pc, c)))
  {
  }

  /** The steps that free what a call holds. */
  predicate Loses(pc: Pc) { pc.Reject? || pc.FreeOwn? || pc.Private? }

  lemma LoserModuleMoves(s: State, pc: Pc, c: Choice, m: nat)
    requires SharedOk(s) && CallOk(s, pc) && m != 0 && Loses(pc)
    ensures Effect(s, pc, c).loads[m] + Accounted(s, m, Share(OfModule(m), pc))
         == s.loads[m] + Accounted(Effect(s, pc, c), m, Share(OfModule(m), NextPc(s, pc, c)))
  {
  }

  predicate HandsOver(pc: Pc) { pc.Complete? || pc.ReadyFallback? || pc.FinishFallback? }

  lemma HandOver(s: State, pc: Pc, c: Choice, m: nat)
    requires SharedOk(s) && CallOk(s, pc) && m != 0
    requires HandsOver(pc)
    ensures Accounted(s, m, Share(OfModule(m), pc))
         == Accounted(Effect(s, pc, c), m, Share(OfModule(m), NextPc(s, pc, c)))
    ensures Effect(s, pc, c).loads == s.loads
  {
  }

  lemma KeepModule(s: State, step: Step, m: nat)
    requires SharedOk(s) && ModuleBalances(s, m) && m != 0
    requires step.Advance? && step.call < |s.calls| ==> CallOk(s, s.calls[step.call])
    ensures ModuleBalances(Apply(s, step), m)
  {
    match step
    case Acquire => TotalAppend(s.calls, CheckNormal(Start), OfModule(m));
    case Advance(i, c) =>
      if i < |s.calls| {
        TotalUpdate(s.calls, i, NextPc(s, s.calls[i], c), OfModule(m));
        ModuleMoves(s, s.calls[i], c, m);
        hide Effect, NextPc, Share, CallOk, SharedOk;
      }
  }

  /** ... and between the three places a record can be. */
  lemma RecordMoves(s: State, pc: Pc, c: Choice, r: nat)
    requires SharedOk(s) && CallOk(s, pc)
    ensures Places(Effect(s, pc, c), r, Share(OfRecord(r), NextPc(s, pc, c)))
         == Places(s, r, Share(OfRecord(r), pc)) + if |s.records| <= r < |Effect(s, pc, c).records| then 1 else 0
    ensures |Effect(s, pc, c).records| >= |s.records|
  {
    hide Share, SharedOk;
    if KeepsRecords(pc) {
      SameRecords(s, pc, c, r);
    } else {
      RecordChanges(s, pc, c, r);
    }
  }

  /** The steps that neither make, place nor drop a record. */
  predicate KeepsRecords(pc: Pc) { !pc.Allocate? && !pc.Complete? && !pc.DropRecord? }

  lemma SameRecords(s: State, pc: Pc, c: Choice, r: nat)
    requires SharedOk(s) && CallOk(s, pc) && KeepsRecords(pc)
    ensures Places(Effect(s, pc, c), r, Share(OfRecord(r), NextPc(s, pc, c))) == Places(s, r, Share(OfRecord(r), pc))
    ensures |Effect(s, pc, c).records| == |s.records|
  {
  }

  lemma RecordChanges(s: State, pc: Pc, c: Choice, r: nat)
    requires SharedOk(s) && CallOk(s, pc) && !KeepsRecords(pc)
    ensures Places(Effect(s, pc, c), r, Share(OfRecord(r), NextPc(s, pc, c)))
         == Places(s, r, Share(OfRecord(r), pc)) + if |s.records| <= r < |Effect(s, pc, c).records| then 1 else 0
    ensures |Effect(s, pc, c).records| >= |s.records|
  {
  }

  lemma KeepRecord(s: State, step: Step, r: nat)
    requires SharedOk(s) && RecordBalances(s, r)
    requires step.Advance? && step.call < |s.calls| ==> CallOk(s, s.calls[step.call])
    ensures RecordBalances(Apply(s, step), r)
  {
    match step
    case Acquire => TotalAppend(s.calls, CheckNormal(Start), OfRecord(r));
    case Advance(i, c) =>
      if i < |s.calls| {
        TotalUpdate(s.calls, i, NextPc(s, s.calls[i], c), OfRecord(r));
        RecordMoves(s, s.calls[i], c, r);
        hide Effect, NextPc, Share, CallOk, SharedOk;
      }
  }

  lemma WriterMoves(s: State, pc: Pc, c: Choice)
    requires CallOk(s, pc)
    requires Share(OfWriter, pc) <= if s.fallbackState == Writing then 1 else 0
    ensures Share(OfWriter, NextPc(s, pc, c)) + (if s.fallbackState == Writing then 1 else 0)
         == Share(OfWriter, pc) + if Effect(s, pc, c).fallbackState == Writing then 1 else 0
    ensures Effect(s, pc, c).calls == s.calls
  {
  }

  lemma KeepWriter(s: State, step: Step)
    requires OneWriter(s)
    requires step.Advance? && step.call < |s.calls| ==> CallOk(s, s.calls[step.call])
    ensures OneWriter(Apply(s, step))
  {
    match step
    case Acquire => TotalAppend(s.calls, CheckNormal(Start), OfWriter);
    case Advance(i, c) =>
      if i < |s.calls| {
        TotalUpdate(s.calls, i, NextPc(s, s.calls[i], c), OfWriter);
        TotalMember(s.calls, i, OfWriter);
        WriterMoves(s, s.calls[i], c);
        hide Effect, NextPc, Share, CallOk;
      }
  }

  lemma StepKeeps(s: State, step: Step)
    requires Inv(s)
    ensures Inv(Apply(s, step)) && Evolves(s, Apply(s, step))
  {
    hide ModuleBalances, RecordBalances, OneWriter, Apply, CallOk, SharedOk, Evolves;
    KeepCalls(s, step);
    KeepWriter(s, step);
    StepEvolves(s, step);
    forall m: nat | m != 0
      ensures ModuleBalances(Apply(s, step), m)
    {
      KeepModule(s, step, m);
    }
    forall r: nat
      ensures RecordBalances(Apply(s, step), r)
    {
      KeepRecord(s, step, r);
    }
  }
}
