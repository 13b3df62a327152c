/** The installer's transaction over three or four import cells that share one page: swap each
    cell from its original to the wrapper, verify everything, and commit once; or put back what
    was swapped and prove it; or report that neither could be done.

    The page belongs to the whole process. Before every operation foreign code may change any
    cell, the protection and the gate, and the operation itself may fail with or without taking
    effect. The log records what the transaction itself did and saw.
 */
module InstallTransaction {
  import opened ObserverProtocol

  datatype Protection = ReadOnly | ReadWrite | OtherProtection(code: nat)

  datatype Reason =
    | NoReason | InvalidContext | PageMismatch | UnsupportedProtection | ProfileMismatch | VerifyFailed
    | Contamination | ProtectFailed | CellChanged | RollbackFailed | OtherReason(code: nat)

  datatype Result = Result(installed: bool, fatal: bool, reason: Reason)

  datatype Event =
    | Protecting(to: Protection)
    | Swapping(cell: nat, expected: nat, desired: nat, was: nat, now: nat)
    | SawProtection(cell: nat, protection: Protection)
    | SawCell(cell: nat, value: nat)
    | SawStable
    | SawCold
    | SawPump
    | GateArmed
    | GateDisabled

  datatype Request = Request(
    base: nat, imageSize: nat, pageSize: nat,
    rvas: seq<nat>, originals: seq<nat>, wrappers: seq<nat>, pump: bool)

  const CELL: nat := 8
  const ADDRESS_MAX: nat := 0xFFFF_FFFF_FFFF_FFFF

  predicate Shaped(r: Request) {
    && |r.rvas| == |r.originals| == |r.wrappers| == if r.pump then 4 else 3
  }

  // ---- Where the cells lie ----

  predicate PowerOfTwo(n: nat) {
    n == 1 || (n > 1 && n % 2 == 0 && PowerOfTwo(n / 2))
  }

  function PageOf(address: nat, pageSize: nat): (page: nat)
    requires pageSize > 0
    ensures page <= address < page + pageSize
  {
    address - address % pageSize
  }

  predicate ContextOk(r: Request) {
    && r.pageSize >= CELL && PowerOfTwo(r.pageSize)
    && (r.pump && |r.originals| == 4 == |r.wrappers| ==>
          r.originals[3] != 0 && r.wrappers[3] != 0 && r.originals[3] != r.wrappers[3])
    && r.base != 0 && r.base + r.imageSize <= ADDRESS_MAX
  }

  predicate CellOk(r: Request, i: nat)
    requires Shaped(r) && i < |r.rvas|
  {
    && r.originals[i] != 0
    && r.rvas[i] % CELL == 0
    && r.rvas[i] + CELL <= r.imageSize
    && forall j :: 0 <= j < i ==> r.rvas[j] != r.rvas[i]
  }

  predicate PageOk(r: Request, i: nat)
    requires Shaped(r) && i < |r.rvas| && r.pageSize > 0
  {
    var page := PageOf(r.base + r.rvas[i], r.pageSize);
    && page == PageOf(r.base + r.rvas[0], r.pageSize)
    && r.base <= page
    && page + r.pageSize <= r.base + r.imageSize
    && r.base + r.rvas[i] + CELL <= page + r.pageSize
  }

  predicate Placed(r: Request)
    requires Shaped(r)
  {
    ContextOk(r) && forall i :: 0 <= i < |r.rvas| ==> CellOk(r, i) && PageOk(r, i)
  }

  predicate DataProtection(p: Protection) { p.ReadOnly? || p.ReadWrite? }

  lemma CellsApart(r: Request, i: nat, j: nat)
    requires Shaped(r) && i < |r.rvas| && j < |r.rvas| && i != j
    requires CellOk(r, i) && CellOk(r, j)
    ensures r.rvas[i] + CELL <= r.rvas[j] || r.rvas[j] + CELL <= r.rvas[i]
  {
    assert r.rvas[i] != r.rvas[j];
  }

  /** One protection change covers every cell and nothing outside the image, and no two cells overlap. */
  lemma PlacedGeometry(r: Request) returns (page: nat)
    requires Shaped(r) && Placed(r)
    ensures r.base <= page && page + r.pageSize <= r.base + r.imageSize
    ensures forall i :: 0 <= i < |r.rvas| ==>
              page <= r.base + r.rvas[i] && r.base + r.rvas[i] + CELL <= page + r.pageSize
    ensures forall i, j :: 0 <= i < |r.rvas| && 0 <= j < |r.rvas| && i != j ==>
              r.rvas[i] + CELL <= r.rvas[j] || r.rvas[j] + CELL <= r.rvas[i]
  {
    hide PowerOfTwo, PageOf;
    page := PageOf(r.base + r.rvas[0], r.pageSize);
    assert CellOk(r, 0) && PageOk(r, 0);
    forall i | 0 <= i < |r.rvas|
      ensures page <= r.base + r.rvas[i] && r.base + r.rvas[i] + CELL <= page + r.pageSize
    {
      assert PageOk(r, i);
    }
    forall i, j | 0 <= i < |r.rvas| && 0 <= j < |r.rvas| && i != j
      ensures r.rvas[i] + CELL <= r.rvas[j] || r.rvas[j] + CELL <= r.rvas[i]
    {
      CellsApart(r, i, j);
    }
  }

  /** No foreign pointer in any cell. */
  predicate OnlyOurs(r: Request, cells: seq<nat>)
    requires Shaped(r) && |cells| == |r.originals|
  {
    forall j :: 0 <= j < |cells| ==> cells[j] == r.wrappers[j] || cells[j] == r.originals[j]
  }

  /** The cell holds what it held, or what a swap of ours put over the expected pointer. */
  predicate Swapped(expected: seq<nat>, desired: seq<nat>, was: seq<nat>, now: seq<nat>, j: nat)
    requires j < |expected| && j < |desired| && j < |was| && j < |now|
  {
    now[j] == was[j] || (was[j] == expected[j] && now[j] == desired[j])
  }

  // ---- Logs ----

  predicate Mutates(e: Event) { e.Protecting? || e.Swapping? }

  /** Nothing but reads was added. */
  predicate OnlyReads(was: seq<Event>, now: seq<Event>) {
    was <= now && forall k :: |was| <= k < |now| ==> !Mutates(now[k]) && !now[k].GateArmed? && !now[k].GateDisabled?
  }

  /** A swap of ours goes from the original to the wrapper or back, and changes nothing else. */
  predicate OwnSwap(r: Request, e: Event) {
    e.Swapping? ==>
      && e.cell < |r.originals| && e.cell < |r.wrappers|
      && ((e.expected == r.originals[e.cell] && e.desired == r.wrappers[e.cell])
          || (e.expected == r.wrappers[e.cell] && e.desired == r.originals[e.cell]))
      && (e.now == e.was || (e.was == e.expected && e.now == e.desired))
  }

  /** Only swaps of our own were added; the gate was written at most once and at the very end. */
  predicate OnlyOwn(r: Request, was: seq<Event>, now: seq<Event>) {
    && was <= now
    && forall k :: |was| <= k < |now| ==>
         OwnSwap(r, now[k]) && (now[k].GateArmed? || now[k].GateDisabled? ==> k == |now| - 1)
  }

  /** ... and not written at all. */
  predicate OnlyOwnSwaps(r: Request, was: seq<Event>, now: seq<Event>) {
    was <= now && forall k :: |was| <= k < |now| ==> OwnSwap(r, now[k]) && !now[k].GateArmed? && !now[k].GateDisabled?
  }

  predicate NoSwaps(was: seq<Event>, now: seq<Event>) {
    was <= now && forall k :: |was| <= k < |now| ==> !now[k].Swapping?
  }

  /** What verifying the first n cells leaves in the log. */
  function Block(expected: seq<nat>, p: Protection, n: nat): (events: seq<Event>)
    requires n <= |expected|
    ensures |events| == 2 * n
    ensures forall k :: 0 <= k < |events| ==> events[k].SawProtection? || events[k].SawCell?
  {
    if n == 0 then []
    else Block(expected, p, n - 1) + [SawProtection(n - 1, p), SawCell(n - 1, expected[n - 1])]
  }

  /** All cells seen as wrappers at the original protection, then every other check, in order. */
  function ProvenTail(r: Request, p: Protection): seq<Event> {
    Block(r.wrappers, p, |r.wrappers|) + [SawStable, SawCold] + if r.pump then [SawPump] else []
  }

  function OriginalTail(r: Request, p: Protection): seq<Event> {
    Block(r.originals, p, |r.originals|) + [SawStable]
  }

  /** The first thing seen was the first cell's protection: the original one. */
  predicate SawOriginal(was: seq<Event>, now: seq<Event>) {
    |was| < |now| && now[|was|].SawProtection? && now[|was|].cell == 0 && DataProtection(now[|was|].protection)
  }

  /** The log ends with the full proof of the wrappers at the original protection, and the commit. */
  predicate ProvenArmed(r: Request, was: seq<Event>, now: seq<Event>) {
    SawOriginal(was, now) && EndsWith(was, now, ProvenTail(r, now[|was|].protection) + [GateArmed])
  }

  /** The log ends with the full proof of the originals at the original protection, and the closing
      of the gate. */
  predicate ProvenOriginal(r: Request, was: seq<Event>, now: seq<Event>) {
    SawOriginal(was, now) && EndsWith(was, now, OriginalTail(r, now[|was|].protection) + [GateDisabled])
  }

  predicate EndsWith(was: seq<Event>, now: seq<Event>, tail: seq<Event>) {
    |was| + |tail| <= |now| && now[|now| - |tail|..] == tail
  }

  // ---- The page and what may happen to it ----

  class HostPage {
    var cells: seq<nat>
    var protection: Protection
    var gate: Gate
    ghost var log: seq<Event>
    const quiet: bool            // no foreign code runs
    const reliable: bool         // every operation does what it is asked and says so
    const mapped: bool           // what the checks outside this model find when they are reliable
    const stable: bool
    const cold: bool
    const pump: bool

    constructor (cells: seq<nat>, protection: Protection, quiet: bool, reliable: bool,
                 mapped: bool, stable: bool, cold: bool, pump: bool)
      ensures this.cells == cells && this.protection == protection && gate == Preparing && log == []
    {
      this.cells, this.protection, gate, log := cells, protection, Preparing, [];
      this.quiet, this.reliable, this.mapped := quiet, reliable, mapped;
      this.stable, this.cold, this.pump := stable, cold, pump;
    }

    predicate Calm() { quiet && reliable }

    /** No step but the commit arms the gate, and none lowers it. */
    twostate predicate Bystander()
      reads this
    {
      && |cells| == |old(cells)|
      && GateRises(old(gate), gate)
      && (gate == Armed ==> old(gate) == Armed)
    }

    twostate predicate Still()
      reads this
    {
      quiet ==> cells == old(cells) && protection == old(protection) && gate == old(gate)
    }

    method Foreign()
      modifies this`cells, this`protection, this`gate
      ensures Bystander() && Still()
    {
      if !quiet {
        var others: seq<nat>, contaminates: bool := *, *;
        if |others| == |cells| { cells := others; }
        protection := *;
        if gate == Preparing && contaminates { gate := Contaminated; }
      }
    }

    method ReadGate() returns (seen: Gate)
      modifies this`cells, this`protection, this`gate
      ensures Bystander() && Still() && seen == gate
    {
      Foreign();
      seen := gate;
    }

    method QueryProtection(i: nat) returns (ok: bool, seen: Protection)
      requires i < |cells|
      modifies this`cells, this`protection, this`gate, this`log
      ensures Bystander() && Still()
      ensures ok ==> seen == protection
      ensures reliable ==> ok
      ensures log == old(log) + if ok then [SawProtection(i, seen)] else []
    {
      Foreign();
      seen := protection;
      ok := *;
      if reliable { ok := true; }
      if ok { log := log + [SawProtection(i, seen)]; }
    }

    method ReadCell(i: nat) returns (ok: bool, seen: nat)
      requires i < |cells|
      modifies this`cells, this`protection, this`gate, this`log
      ensures Bystander() && Still()
      ensures ok ==> seen == cells[i]
      ensures reliable ==> ok
      ensures log == old(log) + if ok then [SawCell(i, seen)] else []
    {
      Foreign();
      seen := cells[i];
      ok := *;
      if reliable { ok := true; }
      if ok { log := log + [SawCell(i, seen)]; }
    }

    /** Checks that this model leaves abstract; `fact` is what a reliable one finds. */
    method Observe(fact: bool, ghost e: Event) returns (ok: bool)
      requires e.SawStable? || e.SawCold? || e.SawPump?
      modifies this`cells, this`protection, this`gate, this`log
      ensures Bystander() && Still()
      ensures Calm() ==> ok == fact
      ensures log == old(log) + if ok then [e] else []
    {
      Foreign();
      ok := *;
      if quiet && reliable { ok := fact; }
      if ok { log := log + [e]; }
    }

    method Protect(to: Protection) returns (ok: bool)
      modifies this`cells, this`protection, this`gate, this`log
      ensures Bystander()
      ensures quiet ==> cells == old(cells) && gate == old(gate) && (protection == to || protection == old(protection))
      ensures reliable ==> ok && protection == to
      ensures log == old(log) + [Protecting(to)]
    {
      Foreign();
      log := log + [Protecting(to)];
      var happens: bool := *;
      ok := *;
      if reliable { ok, happens := true, true; }
      if happens { protection := to; }
    }

    /** The interlocked exchange reports an exception as failure; it may have happened before that. */
    method Swap(i: nat, expected: nat, desired: nat) returns (ok: bool, observed: nat)
      requires i < |cells|
      modifies this`cells, this`protection, this`gate, this`log
      ensures Bystander()
      ensures log == old(log) + [Swapping(i, expected, desired, observed, cells[i])]
      ensures cells[i] == observed || (observed == expected && cells[i] == desired)
      ensures ok && observed == expected ==> cells[i] == desired
      ensures reliable ==> ok
      ensures quiet ==>
                && protection == old(protection) && gate == old(gate) && observed == old(cells)[i]
                && cells == old(cells)[i := cells[i]]
    {
      Foreign();
      observed := cells[i];
      var happens: bool := *;
      ok := *;
      if reliable { ok := true; }
      if observed == expected && (ok || happens) { cells := cells[i := desired]; }
      log := log + [Swapping(i, expected, desired, observed, cells[i])];
    }

    method Commit() returns (ok: bool)
      modifies this`cells, this`protection, this`gate, this`log
      ensures |cells| == |old(cells)|
      ensures quiet ==> cells == old(cells) && protection == old(protection)
      ensures ok ==> gate == Armed && log == old(log) + [GateArmed]
      ensures !ok ==> log == old(log) && GateRises(old(gate), gate) && (gate == Armed ==> old(gate) == Armed)
      ensures quiet ==> (ok <==> old(gate) == Preparing) && (!ok ==> gate == old(gate))
    {
      Foreign();
      ok := gate == Preparing;
      if ok {
        gate := Armed;
        log := log + [GateArmed];
      }
    }

    method Disable()
      modifies this`gate, this`log
      ensures gate == Disabled && log == old(log) + [GateDisabled]
    {
      gate := Disabled;
      log := log + [GateDisabled];
    }

    // ---- The transaction ----

    /** Whether the cells may be swapped at all, and the protection that must be put back. */
    method Qualify(r: Request) returns (reason: Reason, original: Protection)
      requires Shaped(r) && |cells| == |r.rvas|
      modifies this`cells, this`protection, this`gate, this`log
      ensures Bystander() && Still() && OnlyReads(old(log), log)
      ensures reason == NoReason ==> Placed(r) && DataProtection(original) && (quiet ==> original == protection)
      ensures reason == NoReason ==> |log| > |old(log)| && log[|old(log)|] == SawProtection(0, original)
      ensures Calm() ==> (reason == NoReason <==> Placed(r) && mapped && DataProtection(protection))
      ensures reason.NoReason? || reason.InvalidContext? || reason.PageMismatch? || reason.UnsupportedProtection?
      ensures reason.PageMismatch? ==> !Placed(r)
    {
      original := ReadOnly;
      if r.pageSize < CELL || !PowerOfTwo(r.pageSize) { return InvalidContext, original; }
      if r.pump && (r.originals[3] == 0 || r.wrappers[3] == 0 || r.originals[3] == r.wrappers[3]) {
        return InvalidContext, original;
      }
      if r.base == 0 || r.base + r.imageSize > ADDRESS_MAX { return InvalidContext, original; }
      var i := 0;
      while i < |r.rvas|
        invariant i <= |r.rvas| && Bystander() && Still() && OnlyReads(old(log), log)
        invariant forall j :: 0 <= j < i ==> CellOk(r, j) && PageOk(r, j)
        invariant i > 0 ==> DataProtection(original) && (quiet ==> original == protection)
        invariant i == 0 ==> log == old(log)
        invariant i > 0 ==> |log| > |old(log)| && log[|old(log)|] == SawProtection(0, original)
        invariant i > 0 && Calm() ==> mapped
      {
        if !CellOk(r, i) { return InvalidContext, original; }
        if !PageOk(r, i) { return PageMismatch, original; }
        var ok, seen := QueryProtection(i);
        var section: bool := *;
        if quiet && reliable { section := mapped; }
        if !ok || !section || (i > 0 && seen != original) { return InvalidContext, original; }
        if !DataProtection(seen) { return UnsupportedProtection, original; }
        original := seen;
        i := i + 1;
      }
      return NoReason, original;
    }

    method ProtectedCell(i: nat, expected: nat, p: Protection) returns (ok: bool)
      requires i < |cells|
      modifies this`cells, this`protection, this`gate, this`log
      ensures Bystander() && Still() && OnlyReads(old(log), log)
      ensures ok ==> log == old(log) + [SawProtection(i, p), SawCell(i, expected)]
      ensures quiet && ok ==> protection == p && cells[i] == expected
      ensures Calm() && protection == p && cells[i] == expected ==> ok
    {
      var asked, seen := QueryProtection(i);
      if !asked || seen != p { return false; }
      var value;
      ok, value := ReadCell(i);
      ok := ok && value == expected;
    }

    /** Every cell holds the expected pointer at the given protection. */
    method ProtectedCells(expected: seq<nat>, p: Protection) returns (ok: bool)
      requires |cells| == |expected|
      modifies this`cells, this`protection, this`gate, this`log
      ensures Bystander() && Still() && OnlyReads(old(log), log)
      ensures ok ==> log == old(log) + Block(expected, p, |expected|)
      ensures quiet && ok ==> cells == expected && (|cells| > 0 ==> protection == p)
      ensures Calm() && cells == expected && protection == p ==> ok
    {
      var i := 0;
      while i < |expected|
        invariant i <= |expected| && Bystander() && Still()
        invariant log == old(log) + Block(expected, p, i)
        invariant quiet ==> (forall j :: 0 <= j < i ==> cells[j] == expected[j]) && (i > 0 ==> protection == p)
      {
        ok := ProtectedCell(i, expected[i], p);
        if !ok { return; }
        i := i + 1;
      }
      return true;
    }

    method SwapIn(r: Request) returns (ok: bool, attempted: bool)
      requires Shaped(r) && |cells| == |r.originals|
      modifies this`cells, this`protection, this`gate, this`log
      ensures Bystander() && OnlyOwnSwaps(r, old(log), log)
      ensures !attempted ==> NoSwaps(old(log), log)
      ensures quiet ==> protection == old(protection) && gate == old(gate)
      ensures quiet ==> forall j :: 0 <= j < |cells| ==> Swapped(r.originals, r.wrappers, old(cells), cells, j)
      ensures quiet && !attempted ==> cells == old(cells)
      ensures quiet && ok ==> cells == r.wrappers
      ensures ok ==> attempted
      ensures Calm() && gate == Preparing && old(cells) == r.originals ==> ok
    {
      attempted := false;
      var i := 0;
      while i < |r.originals|
        invariant i <= |r.originals| && Bystander() && OnlyOwnSwaps(r, old(log), log)
        invariant !attempted ==> NoSwaps(old(log), log)
        invariant attempted <==> i > 0
        invariant quiet ==> protection == old(protection) && gate == old(gate)
        invariant quiet ==> forall j :: 0 <= j < i ==> cells[j] == r.wrappers[j] && old(cells)[j] == r.originals[j]
        invariant quiet ==> forall j :: i <= j < |cells| ==> cells[j] == old(cells)[j]
      {
        var seen := ReadGate();
        if seen != Preparing { return false, attempted; }
        attempted := true;
        var swapped, observed := Swap(i, r.originals[i], r.wrappers[i]);
        if !swapped || observed != r.originals[i] { return false, attempted; }
        i := i + 1;
      }
      return true, attempted;
    }

    /** The forward half: everything up to, and not including, the commit. */
    method Attempt(r: Request, original: Protection) returns (ok: bool, attempted: bool, reason: Reason)
      requires Shaped(r) && |cells| == |r.originals|
      modifies this`cells, this`protection, this`gate, this`log
      ensures Bystander() && OnlyOwnSwaps(r, old(log), log)
      ensures |log| > |old(log)| && log[|old(log)|].Protecting?
      ensures !attempted ==> NoSwaps(old(log), log)
      ensures ok ==> EndsWith(old(log), log, ProvenTail(r, original))
      ensures quiet ==> gate == old(gate)
      ensures quiet ==> forall j :: 0 <= j < |cells| ==> Swapped(r.originals, r.wrappers, old(cells), cells, j)
      ensures quiet && !attempted ==> cells == old(cells)
      ensures quiet && ok ==> cells == r.wrappers && protection == original
      ensures Calm() && gate == Preparing && old(cells) == r.originals && stable && cold && (r.pump ==> pump) ==> ok
      ensures ok ==> attempted
      ensures Calm() && ok ==> stable && cold && (r.pump ==> pump)
      ensures !ok ==> reason != NoReason
    {
      ok := Protect(ReadWrite);
      if !ok { return false, false, ProtectFailed; }
      ok, attempted := SwapIn(r);
      if !ok { return false, attempted, CellChanged; }
      ok := Protect(original);
      if !ok { return false, attempted, ProtectFailed; }
      ok, reason := Prove(r, original);
    }

    method Prove(r: Request, original: Protection) returns (ok: bool, reason: Reason)
      requires Shaped(r) && |cells| == |r.wrappers|
      modifies this`cells, this`protection, this`gate, this`log
      ensures Bystander() && Still() && OnlyReads(old(log), log)
      ensures ok ==> log == old(log) + ProvenTail(r, original)
      ensures quiet && ok ==> cells == r.wrappers && protection == original
      ensures Calm() && cells == r.wrappers && protection == original ==> (ok <==> stable && cold && (r.pump ==> pump))
      ensures Calm() && ok ==> stable && cold && (r.pump ==> pump)
      ensures !ok ==> reason != NoReason
    {
      reason := VerifyFailed;
      ok := ProtectedCells(r.wrappers, original);
      if ok { ok := Observe(stable, SawStable); }
      if !ok { return; }
      ok := Observe(cold, SawCold);
      if !ok {
        var code: nat := *;
        return false, OtherReason(code);
      }
      if r.pump {
        reason := ProfileMismatch;
        ok := Observe(pump, SawPump);
      }
    }

    /** All cells are originals at the original protection, and the identity still holds. */
    method Untouched(r: Request, original: Protection) returns (ok: bool)
      requires Shaped(r) && |cells| == |r.originals|
      modifies this`cells, this`protection, this`gate, this`log
      ensures Bystander() && Still() && OnlyReads(old(log), log)
      ensures ok ==> log == old(log) + OriginalTail(r, original)
      ensures quiet && ok ==> cells == r.originals && protection == original
      ensures Calm() && cells == r.originals && protection == original ==> (ok <==> stable)
      ensures Calm() && ok ==> stable
    {
      ok := ProtectedCells(r.originals, original);
      if ok { ok := Observe(stable, SawStable); }
    }

    /** Swaps back whatever still is a wrapper of ours and leaves everything else alone. */
    method SwapOut(r: Request) returns (restored: bool)
      requires Shaped(r) && |cells| == |r.originals|
      modifies this`cells, this`protection, this`gate, this`log
      ensures Bystander() && OnlyOwnSwaps(r, old(log), log)
      ensures quiet ==> protection == old(protection) && gate == old(gate)
      ensures quiet ==> forall j :: 0 <= j < |cells| ==> Swapped(r.wrappers, r.originals, old(cells), cells, j)
      ensures Calm() ==> (restored <==> OnlyOurs(r, old(cells)))
      ensures Calm() && restored ==> cells == r.originals
    {
      restored := true;
      var i := 0;
      while i < |r.originals|
        invariant i <= |r.originals| && Bystander() && OnlyOwnSwaps(r, old(log), log)
        invariant quiet ==> protection == old(protection) && gate == old(gate)
        invariant quiet ==> forall j :: 0 <= j < i ==>
                    cells[j] == old(cells)[j] || (old(cells)[j] == r.wrappers[j] && cells[j] == r.originals[j])
        invariant quiet ==> forall j :: i <= j < |cells| ==> cells[j] == old(cells)[j]
        invariant Calm() ==> (restored <==> forall j :: 0 <= j < i ==>
                                old(cells)[j] == r.wrappers[j] || old(cells)[j] == r.originals[j])
        invariant Calm() && restored ==> forall j :: 0 <= j < i ==> cells[j] == r.originals[j]
      {
        var read, current := ReadCell(i);
        if !read {
          restored := false;
        } else if current == r.wrappers[i] {
          var swapped, observed := Swap(i, r.wrappers[i], r.originals[i]);
          if !swapped || observed != r.wrappers[i] { restored := false; }
        } else if current != r.originals[i] {
          restored := false;
        }
        i := i + 1;
      }
    }

    /** The backward half. Nothing counts as restored that was not read back. */
    method Rollback(r: Request, original: Protection, attempted: bool) returns (restored: bool)
      requires Shaped(r) && |cells| == |r.originals|
      modifies this`cells, this`protection, this`gate, this`log
      ensures |cells| == |old(cells)| && gate == Disabled
      ensures OnlyOwn(r, old(log), log)
      ensures restored ==> EndsWith(old(log), log, OriginalTail(r, original) + [GateDisabled])
      ensures quiet && restored ==> cells == r.originals && protection == original
      ensures Calm() && stable && OnlyOurs(r, old(cells)) ==> restored
    {
      restored := Protect(ReadWrite);
      if restored { restored := SwapOut(r); }
      var protectionRestored := Protect(original);
      var proven := Untouched(r, original);
      restored := proven && ((restored && protectionRestored) || !attempted);
      Disable();
    }

    // ---- The whole installation ----

    method InstallObserver(r: Request) returns (result: Result)
      requires Shaped(r) && |cells| == |r.originals|
      modifies this`cells, this`protection, this`gate, this`log
      ensures OnlyOwn(r, old(log), log)
      ensures result.installed ==>
                && gate == Armed && !result.fatal && result.reason == NoReason
                && Placed(r) && ProvenArmed(r, old(log), log)
      ensures !result.installed ==> result.reason != NoReason && (gate == Armed ==> old(gate) == Armed)
      ensures !result.installed && !result.fatal ==>
                OnlyReads(old(log), log) || (gate == Disabled && ProvenOriginal(r, old(log), log))
      ensures result.fatal ==> gate == Disabled && result.reason == RollbackFailed && !OnlyReads(old(log), log)
      ensures quiet && result.installed ==> cells == r.wrappers && old(cells) == r.originals && protection == old(protection)
      ensures quiet && !result.installed && !result.fatal ==> cells == old(cells) && protection == old(protection)
      ensures Calm() ==>
                && (result.installed <==>
                      && Placed(r) && mapped && DataProtection(old(protection))
                      && cold && (r.pump ==> pump) && stable
                      && old(cells) == r.originals && old(gate) == Preparing)
                && !result.fatal
    {
      var reason, original := Qualify(r);
      if reason != NoReason { return Result(false, false, reason); }
      reason := Precheck(r, original);
      if reason != NoReason { return Result(false, false, reason); }
      hide GateRises, Placed, ProvenTail, OriginalTail, OwnSwap;
      result := Transact(r, original);
    }

    /** From the first protection change on there is one of three ends: committed on a full proof
        of the wrappers, closed on a full proof of the originals, or fatal. */
    method Transact(r: Request, original: Protection) returns (result: Result)
      requires Shaped(r) && |cells| == |r.originals|
      modifies this`cells, this`protection, this`gate, this`log
      ensures OnlyOwn(r, old(log), log)
      ensures |log| > |old(log)| && log[|old(log)|].Protecting?
      ensures result.installed ==>
                && gate == Armed && !result.fatal && result.reason == NoReason
                && EndsWith(old(log), log, ProvenTail(r, original) + [GateArmed])
      ensures !result.installed ==> gate == Disabled && result.reason != NoReason
      ensures !result.installed && !result.fatal ==> EndsWith(old(log), log, OriginalTail(r, original) + [GateDisabled])
      ensures result.fatal ==> result.reason == RollbackFailed
      ensures quiet && result.installed ==> cells == r.wrappers && protection == original
      ensures quiet && !result.installed && !result.fatal ==> cells == r.originals && protection == original
      ensures Calm() && old(gate) == Preparing && old(cells) == r.originals && stable && cold && (r.pump ==> pump) ==>
                result.installed
    {
      hide GateRises, Swapped, Block;
      var ok, attempted, reason := Attempt(r, original);
      if ok {
        var committed := Commit();
        if committed { return Result(true, false, NoReason); }
      }
      var seen := ReadGate();
      if ok || seen == Contaminated { reason := Contamination; }
      result := Abandon(r, original, attempted, reason);
    }

    /** Reads alone may prove that nothing was touched; after a swap the cells are put back. */
    method Abandon(r: Request, original: Protection, attempted: bool, reason: Reason) returns (result: Result)
      requires Shaped(r) && |cells| == |r.originals| && reason != NoReason
      modifies this`cells, this`protection, this`gate, this`log
      ensures OnlyOwn(r, old(log), log)
      ensures gate == Disabled && !result.installed
      ensures !result.fatal ==> result.reason == reason && EndsWith(old(log), log, OriginalTail(r, original) + [GateDisabled])
      ensures result.fatal ==> result.reason == RollbackFailed
      ensures quiet && !result.fatal ==> cells == r.originals && protection == original
      ensures Calm() && stable && OnlyOurs(r, old(cells)) ==> !result.fatal
    {
      hide GateRises, Swapped, Block;
      if !attempted {
        var untouched := Untouched(r, original);
        if untouched {
          Disable();
          return Result(false, false, reason);
        }
      }
      var restored := Rollback(r, original, attempted);
      return if restored then Result(false, false, reason) else Result(false, true, RollbackFailed);
    }

    method Precheck(r: Request, original: Protection) returns (reason: Reason)
      requires Shaped(r) && |cells| == |r.originals|
      modifies this`cells, this`protection, this`gate, this`log
      ensures Bystander() && Still() && OnlyReads(old(log), log)
      ensures reason == NoReason ==> gate == Preparing
      ensures quiet && reason == NoReason ==> cells == r.originals && protection == original
      ensures Calm() && protection == original ==>
                (reason == NoReason <==> cold && (r.pump ==> pump) && stable && cells == r.originals && gate == Preparing)
    {
      var ok := Observe(cold, SawCold);
      if !ok {
        var code: nat := *;
        return OtherReason(code);
      }
      if r.pump {
        ok := Observe(pump, SawPump);
        if !ok { return ProfileMismatch; }
      }
      ok := Observe(stable, SawStable);
      if ok { ok := ProtectedCells(r.originals, original); }
      if !ok { return VerifyFailed; }
      var seen := ReadGate();
      return if seen == Preparing then NoReason else Contamination;
    }
  }
}
