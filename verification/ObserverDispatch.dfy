/** The observer's dispatch state as one wrapped call sees it: every interlocked access is
    preceded by whatever the other calls may do in between. What they may do is `Evolves` of
    the protocol, which `ObserverProtocol.StepKeeps` proves of each of their steps.
 */
module ObserverDispatch {
  import opened ObserverProtocol
  import opened Options

  /** Binding touches neither the word nor the sticky flag. */
  lemma BoundCommutes(s: State, key: Key, valid: bool, word: nat, unknown: bool)
    ensures Bound(s.(lifecycle := word, unknown := unknown), key, valid)
         == Bound(s, key, valid).(lifecycle := word, unknown := unknown)
  {
  }

  lemma BoundExtends(s: State, key: Key, valid: bool)
    ensures s.bindings <= Bound(s, key, valid).bindings
  {
  }

  /** A known key is not decided again. */
  lemma BoundIgnores(s: State, key: Key, valid: bool, objectOk: bool)
    requires Find(s.bindings, key) == |s.bindings| ==> valid == objectOk
    ensures Bound(s, key, valid) == Bound(s, key, objectOk)
  {
  }

  predicate HasAccepted(bindings: seq<Binding>, key: Key) {
    exists i :: 0 <= i < |bindings| && bindings[i].key == key && bindings[i].accepted
  }

  class DispatchState {
    var gate: Gate
    var lifecycle: nat
    var unknown: bool
    var exhausted: bool
    var bindings: array<Binding>
    var bindingCount: nat
    const quiet: bool            // no other call is running
    var held: nat                // entries counted in by the caller and not yet counted out

    ghost predicate Valid()
      reads this, bindings
    {
      && bindings.Length == BINDING_CAPACITY
      && bindingCount <= BINDING_CAPACITY
      && CacheOk(bindings[..bindingCount])
      && (exhausted ==> bindingCount == BINDING_CAPACITY)
      && held <= Flying(lifecycle)
      && Entries(lifecycle) <= HALF_MAX
    }

    /** The cache part of the protocol state. */
    ghost function Abs(): State
      requires Valid()
      reads this, bindings
    {
      State(gate, lifecycle, unknown, bindings[..bindingCount], exhausted, None, Working, [])
    }

    constructor (quiet: bool)
      ensures Valid() && fresh(bindings)
      ensures Abs() == INITIAL && this.quiet == quiet && held == 0
    {
      gate, lifecycle, unknown, exhausted := Preparing, 0, false, false;
      bindings := new Binding[BINDING_CAPACITY];
      bindingCount := 0;
      this.quiet := quiet;
      held := 0;
    }

    // ---- Other calls ----

    method InterfereGate()
      modifies this`gate
      ensures GateRises(old(gate), gate) && (quiet ==> gate == old(gate))
    {
      if !quiet {
        if {
          case gate == Preparing => gate := Armed;
          case gate == Preparing => gate := Contaminated;
          case gate == Preparing || gate == Contaminated => gate := Disabled;
          case true =>
        }
      }
    }

    method InterfereWord()
      requires Valid()
      modifies this`lifecycle, this`unknown
      ensures Valid()
      ensures WordEvolves(old(lifecycle), lifecycle) && (old(unknown) ==> unknown)
      ensures quiet ==> lifecycle == old(lifecycle) && unknown == old(unknown)
    {
      if !quiet {
        var others: nat := *;
        if Entries(others) <= HALF_MAX && WordEvolves(lifecycle, others) && held <= Flying(others) {
          lifecycle := others;
        }
        if * { unknown := true; }
      }
    }

    /** While the cache lock is free another factory call may have bound a key of its own. */
    method InterfereCache()
      requires Valid()
      modifies this`bindingCount, this`exhausted, bindings
      ensures Valid() && old(bindings[..bindingCount]) <= bindings[..bindingCount]
      ensures quiet ==> Abs() == old(Abs())
    {
      if !quiet {
        var target: nat, user: int, sequence: nat, valid: bool := *, *, *, *;
        var _, _ := FindOrInsert(Key(target, user, sequence), valid);
      }
    }

    // ---- Interlocked accesses ----

    method ReadGate() returns (seen: Gate)
      modifies this`gate
      ensures GateRises(old(gate), gate) && seen == gate
      ensures quiet ==> gate == old(gate)
    {
      InterfereGate();
      seen := gate;
    }

    method SwapGate(expected: Gate, desired: Gate) returns (previous: Gate)
      modifies this`gate
      ensures GateRises(old(gate), previous) && (quiet ==> previous == old(gate))
      ensures gate == if previous == expected then desired else previous
    {
      InterfereGate();
      previous := gate;
      if previous == expected { gate := desired; }
    }

    method ReadWord() returns (seen: nat)
      requires Valid()
      modifies this`lifecycle, this`unknown
      ensures Valid() && seen == lifecycle
      ensures WordEvolves(old(lifecycle), lifecycle) && (old(unknown) ==> unknown)
      ensures quiet ==> lifecycle == old(lifecycle) && unknown == old(unknown)
    {
      InterfereWord();
      seen := lifecycle;
    }

    method ReadUnknown() returns (seen: bool)
      requires Valid()
      modifies this`lifecycle, this`unknown
      ensures Valid() && seen == unknown
      ensures WordEvolves(old(lifecycle), lifecycle) && (old(unknown) ==> unknown)
      ensures quiet ==> lifecycle == old(lifecycle) && unknown == old(unknown)
    {
      InterfereWord();
      seen := unknown;
    }

    /** Swap that counts the caller in (+1) or out (-1) when it succeeds. */
    method SwapWord(expected: nat, enter: bool) returns (previous: nat)
      requires Valid()
      requires enter ==> !Full(expected)
      requires !enter ==> held >= 1
      modifies this`lifecycle, this`unknown, this`held
      ensures Valid()
      ensures WordEvolves(old(lifecycle), previous) && (old(unknown) ==> unknown)
      ensures Entries(previous) <= HALF_MAX && old(held) <= Flying(previous)
      ensures previous == expected ==>
                if enter then lifecycle == expected + WORD_HALF + 1 && held == old(held) + 1
                else lifecycle == expected - 1 && held == old(held) - 1
      ensures previous != expected ==> lifecycle == previous && held == old(held)
      ensures quiet ==> previous == old(lifecycle) && unknown == old(unknown)
    {
      InterfereWord();
      previous := lifecycle;
      if previous == expected {
        if enter {
          lifecycle := expected + WORD_HALF + 1;
          held := held + 1;
        } else {
          lifecycle := expected - 1;
          held := held - 1;
        }
      }
    }

    // ---- Admission ----

    /** Admits exactly when the gate is Armed; a qualifying refusal leaves it Contaminated or
        Disabled. A lost swap means the gate has left Preparing, so the loop ends. */
    method Admit(qualifying: bool) returns (admitted: bool)
      modifies this`gate
      ensures GateRises(old(gate), gate)
      ensures admitted <==> gate == Armed
      ensures qualifying && !admitted ==> gate == Contaminated || gate == Disabled
      ensures quiet ==> gate == if qualifying && old(gate) == Preparing then Contaminated else old(gate)
    {
      while true
        invariant GateRises(old(gate), gate)
        invariant quiet ==> gate == old(gate)
        decreases if gate == Preparing then 1 else 0
      {
        var seen := ReadGate();
        if seen == Armed { return true; }
        if !qualifying || seen != Preparing { return false; }
        var previous := SwapGate(Preparing, Contaminated);
        if previous == Preparing { return false; }
      }
    }

    // ---- The lifecycle word ----

    /** Every lost swap means an entry more or an exit more, so even this loop ends. */
    method LifecycleEnter() returns (owned: bool)
      requires Valid()
      modifies this`lifecycle, this`unknown, this`held
      ensures Valid() && (old(unknown) ==> unknown)
      ensures owned ==> held == old(held) + 1 && Entries(old(lifecycle)) < Entries(lifecycle)
      ensures !owned ==> held == old(held) && unknown && WordEvolves(old(lifecycle), lifecycle)
      ensures quiet ==> owned == !Full(old(lifecycle))
      ensures quiet && owned ==> lifecycle == old(lifecycle) + WORD_HALF + 1 && unknown == old(unknown)
    {
      var seen := ReadWord();
      while true
        invariant Valid() && seen == lifecycle && held == old(held)
        invariant WordEvolves(old(lifecycle), lifecycle) && (old(unknown) ==> unknown)
        invariant quiet ==> lifecycle == old(lifecycle) && unknown == old(unknown)
        decreases HALF_MAX - Entries(seen), Flying(seen)
      {
        if Full(seen) {
          unknown := true;
          return false;
        }
        var found := SwapWord(seen, true);
        if found == seen { return true; }
        seen := found;
      }
    }

    /** The low half still counts the caller, so there is always an entry to take off. */
    method LifecycleLeave()
      requires Valid() && held >= 1
      modifies this`lifecycle, this`unknown, this`held
      ensures Valid() && held == old(held) - 1
      ensures WordEvolves(old(lifecycle), lifecycle) && (old(unknown) ==> unknown)
      ensures quiet ==> lifecycle == old(lifecycle) - 1 && unknown == old(unknown)
    {
      var seen := ReadWord();
      while true
        invariant Valid() && seen == lifecycle && held == old(held)
        invariant WordEvolves(old(lifecycle), lifecycle) && (old(unknown) ==> unknown)
        invariant quiet ==> lifecycle == old(lifecycle) && unknown == old(unknown)
        decreases HALF_MAX - Entries(seen), Flying(seen)
      {
        assert Flying(seen) != 0;
        var found := SwapWord(seen, false);
        if found == seen { return; }
        seen := found;
      }
    }

    /** A clean verdict spans everything from the first read to now. */
    method CleanLifecycle(before: nat, after: nat) returns (clean: bool)
      requires Valid()
      modifies this`lifecycle, this`unknown
      ensures Valid()
      ensures WordEvolves(old(lifecycle), lifecycle) && (old(unknown) ==> unknown)
      ensures clean ==> Clean(before, after) && !old(unknown)
      ensures quiet ==> lifecycle == old(lifecycle) && unknown == old(unknown)
      ensures quiet ==> (clean <==> Clean(before, after) && !unknown)
    {
      if before != after || Flying(before) != 0 { return false; }
      var dirty := ReadUnknown();
      return !dirty;
    }

    // ---- The binding cache ----

    method FindBinding(key: Key) returns (index: nat)
      requires Valid()
      ensures index == Find(bindings[..bindingCount], key)
    {
      index := 0;
      while index < bindingCount
        invariant index <= bindingCount
        invariant Find(bindings[..bindingCount], key) == FindFrom(bindings[..bindingCount], key, index)
      {
        if bindings[index].key == key { return; }
        index := index + 1;
      }
    }

    /** Appends an entry for a key that has none, or records that the cache is full. */
    method Insert(key: Key, accepted: bool) returns (id: nat)
      requires Valid() && Find(bindings[..bindingCount], key) == bindingCount && !exhausted
      modifies this`bindingCount, this`exhausted, bindings
      ensures Valid() && Abs() == Bound(old(Abs()), key, accepted)
      ensures id == if old(bindingCount) < BINDING_CAPACITY then bindingCount else 0
    {
      if bindingCount == BINDING_CAPACITY {
        exhausted := true;
        return 0;
      }
      ghost var was := bindings[..bindingCount];
      bindings[bindingCount] := Binding(key, bindingCount + 1, accepted);
      bindingCount := bindingCount + 1;
      assert bindings[..bindingCount] == was + [Binding(key, bindingCount, accepted)];
      return bindingCount;
    }

    /** The proxy id of the key's entry, made if it is missing; 0 when there is no accepted one. */
    method FindOrInsert(key: Key, valid: bool) returns (proxy: nat, created: bool)
      requires Valid()
      modifies this`bindingCount, this`exhausted, bindings
      ensures Valid() && Abs() == Bound(old(Abs()), key, valid)
      ensures proxy > 0 ==> proxy <= bindingCount && bindings[proxy - 1] == Binding(key, proxy, true)
      ensures proxy > 0 <==> HasAccepted(bindings[..bindingCount], key)
      ensures created <==> proxy > 0 && bindingCount == old(bindingCount) + 1
    {
      var index := FindBinding(key);
      if index < bindingCount {
        return if bindings[index].accepted then bindings[index].id else 0, false;
      }
      if exhausted { return 0, false; }
      var id := Insert(key, valid);
      if id == 0 { return 0, false; }
      return if valid then id else 0, valid;
    }

    /** The locked part of a factory call: a proxy id, or 0 for the raw object. */
    method Bind(key: Key, before: nat, valid: bool) returns (proxy: nat, created: bool, clean: bool)
      requires Valid() && key.sequence == Entries(before)
      modifies this`lifecycle, this`unknown, this`bindingCount, this`exhausted, bindings
      ensures Valid()
      ensures WordEvolves(old(lifecycle), lifecycle) && (old(unknown) ==> unknown)
      ensures clean ==> Clean(before, before) && !old(unknown)
      ensures quiet ==> (clean <==> Clean(before, old(lifecycle)) && !old(unknown))
      ensures quiet ==> lifecycle == old(lifecycle) && unknown == old(unknown)
      ensures Abs() == (if clean then Bound(old(Abs()), key, valid) else old(Abs())).(lifecycle := lifecycle, unknown := unknown)
      ensures proxy > 0 ==> proxy <= bindingCount && bindings[proxy - 1] == Binding(key, proxy, true)
      ensures proxy > 0 <==> clean && HasAccepted(bindings[..bindingCount], key)
      ensures created <==> proxy > 0 && bindingCount == old(bindingCount) + 1
    {
      proxy, created := 0, false;
      var now := ReadWord();
      clean := CleanLifecycle(before, now);
      if !clean { return; }
      ghost var was := old(Abs());
      assert Abs() == was.(lifecycle := lifecycle, unknown := unknown);
      BoundCommutes(was, key, valid, lifecycle, unknown);
      hide Bound, CacheOk, Find;
      proxy, created := FindOrInsert(key, valid);
    }

    /** The two locked sections, between which the cache is free and the object is examined. */
    method BindResult(key: Key, before: nat, objectOk: bool) returns (proxy: nat, created: bool)
      requires Valid() && key.sequence == Entries(before)
      modifies this`lifecycle, this`unknown, this`bindingCount, this`exhausted, bindings
      ensures Valid()
      ensures WordEvolves(old(lifecycle), lifecycle) && (old(unknown) ==> unknown)
      ensures old(bindings[..bindingCount]) <= bindings[..bindingCount]
      ensures proxy > 0 ==> !old(unknown) && Flying(before) == 0
      ensures proxy > 0 ==> proxy <= bindingCount && bindings[proxy - 1] == Binding(key, proxy, true)
      ensures quiet && Clean(before, old(lifecycle)) && !old(unknown) ==>
                && Abs() == Bound(old(Abs()), key, objectOk)
                && (proxy > 0 <==> HasAccepted(bindings[..bindingCount], key))
    {
      InterfereCache();
      var index := FindBinding(key);
      var valid := if index < bindingCount then bindings[index].accepted else objectOk;
      ghost var was := Abs();
      InterfereCache();
      ghost var seen := Abs();
      var clean;
      proxy, created, clean := Bind(key, before, valid);
      BoundExtends(seen, key, valid);
      if quiet { BoundIgnores(was, key, valid, objectOk); }
    }

    /** A wrapped factory call whose original returned `native`: a proxy id, or 0 for the
        original's own result. A proxy means an admitted qualifying call, a live object, and
        a word that was the same clean one before the original ran and under the lock. */
    method FactoryEntry(qualifies: bool, user: int, native: nat, objectOk: bool)
      returns (proxy: nat, created: bool, before: nat)
      requires Valid()
      modifies this`gate, this`lifecycle, this`unknown, this`bindingCount, this`exhausted, bindings
      ensures Valid() && GateRises(old(gate), gate)
      ensures old(bindings[..bindingCount]) <= bindings[..bindingCount]
      ensures proxy > 0 ==>
                && gate == Armed && qualifies && native != 0 && !old(unknown)
                && WordEvolves(old(lifecycle), before) && Flying(before) == 0
                && proxy <= bindingCount
                && bindings[proxy - 1] == Binding(Key(native, user, Entries(before)), proxy, true)
      ensures quiet && !(old(gate) == Armed && qualifies && native != 0 && Flying(old(lifecycle)) == 0 && !old(unknown)) ==>
                proxy == 0 && bindings[..bindingCount] == old(bindings[..bindingCount])
      ensures quiet && old(gate) == Armed && qualifies && native != 0 && Flying(old(lifecycle)) == 0 && !old(unknown) ==>
                && Abs() == Bound(old(Abs()), Key(native, user, Entries(old(lifecycle))), objectOk)
                && (proxy > 0 <==> HasAccepted(bindings[..bindingCount], Key(native, user, Entries(old(lifecycle)))))
    {
      proxy, created := 0, false;
      var armed := Admit(qualifies);
      before := ReadWord();
      if !armed || !qualifies || native == 0 { return; }
      var after := ReadWord();
      var clean := CleanLifecycle(before, after);
      if !clean { return; }
      assert quiet ==> Abs() == old(Abs());
      hide CacheOk, Bound, WordEvolves, GateRises;
      proxy, created := BindResult(Key(native, user, Entries(after)), before, objectOk);
    }

    /** The one entry of this sequence standing for the wanted object, or 0 when there is none
        or more than one. */
    method ScanAccepted(wanted: ObjectRef, sequence: nat) returns (only: nat)
      requires Valid()
      ensures only > 0 ==> UniqueMatch(bindings[..bindingCount], wanted, sequence, only)
      ensures only == 0 ==> !exists id :: UniqueMatch(bindings[..bindingCount], wanted, sequence, id)
    {
      ghost var cache := bindings[..bindingCount];
      only := 0;
      var i := 0;
      while i < bindingCount
        invariant i <= bindingCount && only <= i
        invariant only > 0 ==> Match(cache[only - 1], wanted, sequence)
        invariant forall j :: 0 <= j < i && Match(cache[j], wanted, sequence) ==> j == only - 1
      {
        if Match(bindings[i], wanted, sequence) {
          if only > 0 {
            assert Match(cache[i], wanted, sequence) && Match(cache[only - 1], wanted, sequence);
            return 0;
          }
          only := bindings[i].id;
        }
        i := i + 1;
      }
    }

    /** `taken` says that the bounded try-lock was refused. */
    method ReadAcceptedBinding(wanted: ObjectRef, taken: bool) returns (id: nat, word: nat)
      requires Valid()
      modifies this`gate, this`lifecycle, this`unknown
      ensures Valid()
      ensures id > 0 ==>
                && UniqueMatch(bindings[..bindingCount], wanted, Entries(word), id)
                && gate == Armed && Flying(word) == 0 && !old(unknown) && WordEvolves(old(lifecycle), word)
      ensures quiet ==> gate == old(gate) && lifecycle == old(lifecycle) && unknown == old(unknown)
      ensures quiet ==>
                (id > 0 <==>
                  && gate == Armed && !unknown && Flying(lifecycle) == 0 && !taken
                  && exists i :: UniqueMatch(bindings[..bindingCount], wanted, Entries(lifecycle), i))
    {
      id, word := 0, 0;
      var seen := ReadGate();
      if seen != Armed { return; }
      var dirty := ReadUnknown();
      if dirty { return; }
      word := ReadWord();
      if Flying(word) != 0 || taken { return; }
      var only := ScanAccepted(wanted, Entries(word));
      if only == 0 { return; }
      seen := ReadGate();
      if seen != Armed { return; }
      var now := ReadWord();
      var clean := CleanLifecycle(word, now);
      if clean { id := only; }
    }
  }
}
