/** The read-only observation of the host's own recovery structures: which heap
    buffers it owns, its three pools of typed slots and its table of generic
    tasks. The observation refuses anything it cannot account for, so a ready
    one is a consistent picture: no two owned buffers share an address, live
    tasks have distinct issued ids and hold no more references than their slots
    count, and each pool's first free slot is its least free slot.

    What the host's memory holds is a value, one for each observation. Addresses
    and sizes are 64-bit; the one sum that can pass the top of the address space
    is guarded before it is formed. */
module NativeSnapshot {

  import opened Options

  const TWO_64: nat := 0x1_0000_0000_0000_0000

  type Word16 = n: nat | n < 0x1_0000
  type Word32 = n: nat | n < 0x1_0000_0000
  type Word64 = n: nat | n < 0x1_0000_0000_0000_0000
  type Int32 = n: int | -0x8000_0000 <= n < 0x8000_0000

  datatype Result =
    Ready | Unreadable | Budget | Shape | Alias | Descriptor | Pool | Readiness | Provenance

  const MAX_INTERVALS := 1536
  const MAX_STRINGS := 1408
  const MAX_ELEMENTS := 1280
  const VECTOR_ELEMENTS := 256
  const VECTOR_CAPACITY := 8192
  const STRING_CAPACITY := 1048576

  /** The first sixteen bytes of a string hold its text or, in their low half,
      the pointer to it. */
  datatype StringHeader = StringHeader(inline: nat, size: Word64, capacity: Word64)
  datatype VectorHeader = VectorHeader(begin: Word64, end: Word64, capacity: Word64)

  /** What the reads of one observation answer, at whatever time each was made: None where a read fails, and which ranges are
      committed and writable, on the heap or anywhere. */
  datatype Memory = Memory(
    stringAt: Word64 -> Option<StringHeader>,
    vectorAt: Word64 -> Option<VectorHeader>,
    referencesAt: nat -> Option<Int32>,
    byteAt: nat -> Option<nat>,
    tableAt: Word64 -> Option<Word64>,
    typeAt: Word64 -> Option<Word16>,
    heap: (Word64, nat) -> bool,
    writable: (Word64, nat) -> bool)

  // ---- Extents ----

  /** Whose buffer an extent is; no check looks at it. */
  datatype Owner = StringAt(address: Word64) | VectorAt(address: Word64, first: nat) | PoolAt(address: Word64) | PublicText

  datatype Extent = Extent(begin: nat, end: nat, owner: Owner)

  predicate Covers(e: Extent, address: nat) {
    e.begin <= address < e.end
  }

  predicate Clear(e: Extent, begin: nat, end: nat) {
    e.end <= begin || end <= e.begin
  }

  predicate Apart(a: Extent, b: Extent) {
    Clear(a, b.begin, b.end)
  }

  lemma ApartMeansNoCommonAddress(a: Extent, b: Extent)
    requires a.begin < a.end && b.begin < b.end
    ensures Apart(a, b) <==> forall x: nat :: !(Covers(a, x) && Covers(b, x))
  {
    if !Apart(a, b) {
      var x := if a.begin < b.begin then b.begin else a.begin;
      assert Covers(a, x) && Covers(b, x);
    }
  }

  predicate Proper(e: Extent) {
    0 < e.begin < e.end < TWO_64
  }

  ghost predicate Recorded(extents: seq<Extent>) {
    && |extents| <= MAX_INTERVALS
    && (forall i :: 0 <= i < |extents| ==> Proper(extents[i]))
    && (forall i, j :: 0 <= i < j < |extents| ==> Apart(extents[i], extents[j]))
  }

  /** A range that may still be recorded. */
  ghost predicate Admits(extents: seq<Extent>, begin: nat, bytes: nat) {
    && 0 < begin && begin + bytes < TWO_64 && |extents| < MAX_INTERVALS
    && forall i :: 0 <= i < |extents| ==> Clear(extents[i], begin, begin + bytes)
  }

  // ---- Strings ----

  datatype NativeString =
    NativeString(address: Word64, inline: nat, data: Word64, size: Word64, capacity: Word64)

  predicate OnHeap(s: NativeString) {
    s.capacity >= 16
  }

  function Buffer(s: NativeString): Extent {
    Extent(s.data, s.data + s.capacity + 1, StringAt(s.address))
  }

  /** A string as its header in memory describes it, inline or on the heap, with
      its terminator in place. */
  ghost predicate WellFormed(m: Memory, s: NativeString) {
    && s.address != 0 && s.address % 8 == 0
    && m.stringAt(s.address).Some?
    && var header := m.stringAt(s.address).value;
    && s.inline == header.inline && s.size == header.size && s.capacity == header.capacity
    && s.size <= s.capacity <= STRING_CAPACITY
    && (if OnHeap(s) then
          && s.data == header.inline % TWO_64 && s.data != 0 && s.data % 16 == 0
          && m.heap(s.data, s.capacity + 1)
        else
          s.capacity == 15 && s.data == s.address)
    && s.data + s.size < TWO_64
    && m.byteAt(s.data + s.size) == Some(0)
  }

  /** The recorded extents hold every heap buffer of the strings taken in, and
      those buffers are apart from one another. */
  ghost predicate Held(m: Memory, strings: seq<NativeString>, extents: seq<Extent>) {
    && (forall i :: 0 <= i < |strings| ==>
          WellFormed(m, strings[i]) && (OnHeap(strings[i]) ==> Buffer(strings[i]) in extents))
    && (forall i, j :: 0 <= i < j < |strings| && OnHeap(strings[i]) && OnHeap(strings[j]) ==>
          Apart(Buffer(strings[i]), Buffer(strings[j])))
  }

  lemma HeldGrows(m: Memory, strings: seq<NativeString>, extents: seq<Extent>, more: seq<Extent>)
    requires Held(m, strings, extents)
    ensures Held(m, strings, extents + more)
  {
  }

  lemma HeldTakes(m: Memory, strings: seq<NativeString>, extents: seq<Extent>, s: NativeString)
    requires Held(m, strings, extents) && WellFormed(m, s)
    requires OnHeap(s) ==> Admits(extents, s.data, s.capacity + 1)
    ensures Held(m, strings + [s], if OnHeap(s) then extents + [Buffer(s)] else extents)
  {
    hide WellFormed;
  }

  // ---- Vectors ----

  datatype NativeVector =
    NativeVector(address: Word64, begin: Word64, end: Word64, capacity: Word64, firstString: nat, stringCount: nat)

  /** The strings of a vector are its elements, thirty-two bytes apart. */
  ghost predicate Elements(v: NativeVector, strings: seq<NativeString>) {
    && v.firstString + v.stringCount <= |strings|
    && v.begin <= v.end <= v.capacity
    && v.end - v.begin == 32 * v.stringCount
    && forall k :: 0 <= k < v.stringCount ==> strings[v.firstString + k].address == v.begin + 32 * k
  }

  function Storage(v: NativeVector): Extent {
    Extent(v.begin, v.capacity, VectorAt(v.address, v.firstString))
  }

  /** A vector as its header in memory describes it, its storage recorded. */
  ghost predicate VectorRead(m: Memory, v: NativeVector, strings: seq<NativeString>, extents: seq<Extent>) {
    && m.vectorAt(v.address) == Some(VectorHeader(v.begin, v.end, v.capacity))
    && Elements(v, strings)
    && (v.begin != 0 ==> Storage(v) in extents)
  }

  lemma VectorReadGrows(m: Memory, v: NativeVector, strings: seq<NativeString>, extents: seq<Extent>,
                        moreStrings: seq<NativeString>, moreExtents: seq<Extent>)
    requires VectorRead(m, v, strings, extents)
    requires strings <= moreStrings && extents <= moreExtents
    ensures VectorRead(m, v, moreStrings, moreExtents)
  {
  }

  // ---- The cached address text ----

  datatype TextHeader = TextHeader(data: Word64, count: Int32, capacity: Int32)

  const CACHE_CHARS := 1024

  function Text(t: TextHeader): Extent
    requires t.capacity >= 0
  {
    Extent(t.data, t.data + 2 * t.capacity, PublicText)
  }

  ghost predicate TextRead(t: TextHeader, extents: seq<Extent>) {
    && 0 <= t.count <= t.capacity <= CACHE_CHARS
    && if t.data == 0 then t.capacity == 0 else Text(t) in extents
  }

  lemma TextReadGrows(t: TextHeader, extents: seq<Extent>, more: seq<Extent>)
    requires TextRead(t, extents) && extents <= more
    ensures TextRead(t, more)
  {
  }

  // ---- Typed slots ----

  datatype Kind = Finish | Create | Heartbeat

  function Stride(kind: Kind): nat {
    match kind case Finish => 0x30 case Create => 0x90 case Heartbeat => 0x78
  }

  function StringsPerSlot(kind: Kind): (n: nat)
    ensures n <= 4
  {
    match kind case Finish => 1 case Create => 4 case Heartbeat => 2
  }

  function StringOffset(kind: Kind, j: nat): nat
    requires j < 4
  {
    [0, if kind == Create then 0x28 else 0x20, 0x48, 0x68][j]
  }

  datatype Slot = Slot(references: Int32, payload: nat, firstString: nat, stringCount: nat, vector: NativeVector)

  const NO_SLOT: Word16 := 0xFFFF
  const SLOTS := 16

  datatype TypedPool = TypedPool(descriptor: Word64, typ: Word16, firstFree: Word16, slots: seq<Slot>)

  ghost predicate LeastFree(slots: seq<Slot>, firstFree: nat) {
    if firstFree < |slots| then
      && slots[firstFree].references == -1
      && forall i :: 0 <= i < firstFree ==> slots[i].references != -1
    else
      && firstFree == NO_SLOT
      && forall i :: 0 <= i < |slots| ==> slots[i].references != -1
  }

  const NO_VECTOR := NativeVector(0, 0, 0, 0, 0, 0)

  ghost predicate SlotRead(m: Memory, kind: Kind, descriptor: nat, i: nat, slot: Slot,
                           strings: seq<NativeString>, extents: seq<Extent>) {
    && slot.references >= -1
    && m.referencesAt(descriptor + 0x20 + i * Stride(kind)) == Some(slot.references)
    && slot.payload == descriptor + 0x28 + i * Stride(kind)
    && slot.stringCount == StringsPerSlot(kind)
    && slot.firstString + slot.stringCount <= |strings|
    && (forall j :: 0 <= j < slot.stringCount ==>
          strings[slot.firstString + j].address == slot.payload + StringOffset(kind, j))
    && (if kind == Heartbeat then
          && slot.vector.address == slot.payload + 0x48
          && slot.vector.firstString == slot.firstString + slot.stringCount
          && VectorRead(m, slot.vector, strings, extents)
        else slot.vector == NO_VECTOR)
  }

  lemma SlotReadGrows(m: Memory, kind: Kind, descriptor: nat, i: nat, slot: Slot,
                      strings: seq<NativeString>, extents: seq<Extent>,
                      moreStrings: seq<NativeString>, moreExtents: seq<Extent>)
    requires SlotRead(m, kind, descriptor, i, slot, strings, extents)
    requires strings <= moreStrings && extents <= moreExtents
    ensures SlotRead(m, kind, descriptor, i, slot, moreStrings, moreExtents)
  {
  }

  /** A pool's header and its slots. */
  function Body(kind: Kind, pool: TypedPool): Extent {
    Extent(pool.descriptor, pool.descriptor + 0x20 + SLOTS * Stride(kind), PoolAt(pool.descriptor))
  }

  ghost predicate PoolRead(m: Memory, kind: Kind, pool: TypedPool, strings: seq<NativeString>, extents: seq<Extent>) {
    && pool.descriptor != 0
    && Body(kind, pool) in extents
    && |pool.slots| == SLOTS
    && LeastFree(pool.slots, pool.firstFree)
    && forall i :: 0 <= i < SLOTS ==> SlotRead(m, kind, pool.descriptor, i, pool.slots[i], strings, extents)
  }

  // ---- Generic tasks ----

  const TASKS := 128

  datatype Task = Task(state: Word32, id: Word32, holder: Word32)

  predicate Live(t: Task) {
    t.state != 0
  }

  predicate Holds(t: Task, typ: nat, slot: nat) {
    Live(t) && t.holder / 0x1_0000 == typ && t.holder % 0x1_0000 == slot
  }

  function Holders(tasks: seq<Task>, typ: nat, slot: nat): nat {
    if tasks == [] then 0
    else Holders(tasks[..|tasks| - 1], typ, slot) + if Holds(tasks[|tasks| - 1], typ, slot) then 1 else 0
  }

  function Idle(tasks: seq<Task>): nat {
    if tasks == [] then 0
    else Idle(tasks[..|tasks| - 1]) + if Live(tasks[|tasks| - 1]) then 0 else 1
  }

  datatype Ids = Ids(issued: Word32, invalid: Word32, registry: Rows)

  predicate Issued(ids: Ids, t: Task)
  {
    && t.id != 0 && t.id != ids.invalid && t.id <= ids.issued
    && 0 < t.holder / 0x1_0000 < 256 && ids.registry[t.holder / 0x1_0000] != 0
    && t.holder % 0x1_0000 < SLOTS
  }

  /** What a consistent task table is, with no reference to the order of checks. */
  ghost predicate TasksAccepted(tasks: seq<Task>, ids: Ids, pools: seq<TypedPool>)
    requires forall p :: 0 <= p < |pools| ==> |pools[p].slots| == SLOTS
  {
    && (forall i :: 0 <= i < |tasks| ==> tasks[i].state <= 5 && tasks[i].state != 1)
    && (forall i :: 0 <= i < |tasks| && Live(tasks[i]) ==> Issued(ids, tasks[i]))
    && (forall i, j :: 0 <= i < j < |tasks| && Live(tasks[i]) && Live(tasks[j]) ==> tasks[i].id != tasks[j].id)
    && (forall p, k :: 0 <= p < |pools| && 0 <= k < SLOTS ==> Counted(tasks, pools[p], k))
  }

  /** A slot somebody holds counts at least the holders. */
  predicate Counted(tasks: seq<Task>, pool: TypedPool, k: nat)
    requires k < |pool.slots|
  {
    var holders := Holders(tasks, pool.typ, k);
    holders == 0 || holders <= pool.slots[k].references
  }

  lemma {:induction false} HolderCounts(tasks: seq<Task>, i: nat, typ: nat, slot: nat)
    requires i < |tasks| && Holds(tasks[i], typ, slot)
    ensures Holders(tasks, typ, slot) > 0
    decreases |tasks|
  {
    if i < |tasks| - 1 {
      HolderCounts(tasks[..|tasks| - 1], i, typ, slot);
    }
  }

  // ---- The observer ----

  class Observer {
    const memory: Memory
    var intervals: seq<Extent>
    var roots: seq<NativeString>
    var strings: seq<NativeString>
    var elements: nat

    /** The strings at the roots and those in the tables hold their buffers. */
    ghost predicate Valid()
      reads this`intervals, this`roots, this`strings, this`elements
    {
      && Recorded(intervals) && Held(memory, roots + strings, intervals)
      && |strings| <= MAX_STRINGS && elements <= MAX_ELEMENTS
    }

    constructor (m: Memory)
      ensures Valid() && memory == m && intervals == [] && roots == [] && strings == [] && elements == 0
    {
      memory := m;
      intervals, roots, strings, elements := [], [], [], 0;
    }

    /** Recorded exactly when it overlaps nothing recorded and there is room. */
    method Interval(begin: Word64, bytes: nat, owner: Owner) returns (ok: bool)
      requires Recorded(intervals)
      modifies this`intervals
      ensures Recorded(intervals)
      ensures ok <==> bytes == 0 || Admits(old(intervals), begin, bytes)
      ensures intervals == old(intervals) + if ok && bytes > 0 then [Extent(begin, begin + bytes, owner)] else []
    {
      if bytes == 0 {
        return true;
      }
      if begin == 0 || bytes > TWO_64 - 1 - begin || |intervals| == MAX_INTERVALS {
        return false;
      }
      var end := begin + bytes;
      var i := 0;
      while i < |intervals|
        invariant 0 <= i <= |intervals|
        invariant forall k :: 0 <= k < i ==> Clear(intervals[k], begin, end)
      {
        var other := intervals[i];
        if begin < other.end && other.begin < end {
          assert !Clear(intervals[i], begin, end);
          return false;
        }
        i := i + 1;
      }
      intervals := intervals + [Extent(begin, end, owner)];
      return true;
    }

    /** A string, its buffer recorded when an owner takes it. Ready exactly for a
        well-formed string whose buffer can be recorded. */
    method String(address: Word64, owned: bool) returns (result: Result, out: NativeString)
      requires Recorded(intervals)
      modifies this`intervals
      ensures Recorded(intervals)
      ensures result.Ready? ==>
        && WellFormed(memory, out) && out.address == address
        && (owned && OnHeap(out) ==> Admits(old(intervals), out.data, out.capacity + 1))
        && intervals == old(intervals) + if owned && OnHeap(out) then [Buffer(out)] else []
      ensures !result.Ready? ==>
        forall s :: WellFormed(memory, s) && s.address == address ==>
          owned && OnHeap(s) && !Admits(old(intervals), s.data, s.capacity + 1)
    {
      out := NativeString(address, 0, 0, 0, 0);
      if address == 0 || address % 8 != 0 || memory.stringAt(address).None? {
        return Unreadable, out;
      }
      var header := memory.stringAt(address).value;
      out := NativeString(address, header.inline, 0, header.size, header.capacity);
      if out.size > out.capacity {
        return Shape, out;
      }
      if out.capacity > STRING_CAPACITY {
        return Budget, out;
      }
      if out.capacity < 16 {
        if out.capacity != 15 || out.size >= 16 {
          return Shape, out;
        }
        out := out.(data := address);
      } else {
        out := out.(data := header.inline % TWO_64);
        if out.data == 0 || out.data % 16 != 0 || !memory.heap(out.data, out.capacity + 1) {
          return Shape, out;
        }
        if owned {
          var ok := Interval(out.data, out.capacity + 1, StringAt(address));
          if !ok {
            return Alias, out;
          }
        }
      }
      if out.size > TWO_64 - 1 - out.data || memory.byteAt(out.data + out.size) != Some(0) {
        return Shape, out;
      }
      return Ready, out;
    }

    method RootString(address: Word64) returns (result: Result)
      requires Valid() && strings == []
      modifies this`intervals, this`roots
      ensures Recorded(intervals)
      ensures result.Ready? ==>
        && Valid() && old(intervals) <= intervals && |roots| == |old(roots)| + 1
        && old(roots) <= roots && roots[|old(roots)|].address == address
    {
      var out;
      result, out := String(address, true);
      if result == Ready {
        HeldTakes(memory, roots + strings, old(intervals), out);
        assert (roots + [out]) + strings == roots + strings + [out];
        roots := roots + [out];
      }
    }

    method AppendString(address: Word64) returns (result: Result)
      requires Valid()
      modifies this`intervals, this`strings
      ensures Recorded(intervals)
      ensures result.Ready? ==>
        && Valid() && old(intervals) <= intervals && old(strings) <= strings
        && |strings| == |old(strings)| + 1 && strings[|old(strings)|].address == address
    {
      if |strings| == MAX_STRINGS {
        return Budget;
      }
      var out;
      result, out := String(address, true);
      if result == Ready {
        HeldTakes(memory, roots + strings, old(intervals), out);
        assert roots + (strings + [out]) == roots + strings + [out];
        strings := strings + [out];
      }
    }

    method Vector(address: Word64) returns (result: Result, out: NativeVector)
      requires Valid()
      modifies this`intervals, this`strings, this`elements
      ensures Recorded(intervals)
      ensures result.Ready? ==>
        && Valid() && old(intervals) <= intervals && old(strings) <= strings
        && out.address == address && out.firstString == |old(strings)|
        && |strings| == |old(strings)| + out.stringCount && elements == old(elements) + out.stringCount
        && VectorRead(memory, out, strings, intervals)
    {
      hide Held, WellFormed;
      out := NativeVector(address, 0, 0, 0, |strings|, 0);
      if memory.vectorAt(address).None? {
        return Unreadable, out;
      }
      var header := memory.vectorAt(address).value;
      out := NativeVector(address, header.begin, header.end, header.capacity, |strings|, 0);
      if out.begin == 0 {
        result := if out.end == 0 && out.capacity == 0 then Ready else Shape;
        return;
      }
      if out.begin % 16 != 0 || out.begin > out.end || out.end > out.capacity
        || (out.end - out.begin) % 32 != 0 || (out.capacity - out.begin) % 32 != 0 {
        return Shape, out;
      }
      var count, room := (out.end - out.begin) / 32, (out.capacity - out.begin) / 32;
      if count > VECTOR_ELEMENTS || room > VECTOR_CAPACITY || elements + count > MAX_ELEMENTS {
        return Budget, out;
      }
      if room == 0 || !memory.heap(out.begin, room * 32) {
        return Shape, out;
      }
      var ok := Interval(out.begin, room * 32, VectorAt(address, |strings|));
      if !ok {
        return Alias, out;
      }
      HeldGrows(memory, roots + strings, old(intervals), [Storage(out)]);
      elements := elements + count;
      var i := 0;
      while i < count
        invariant 0 <= i <= count
        invariant Valid() && elements == old(elements) + count
        invariant old(intervals) + [Storage(out)] <= intervals
        invariant old(strings) <= strings && |strings| == |old(strings)| + i
        invariant forall k :: 0 <= k < i ==> strings[|old(strings)| + k].address == out.begin + 32 * k
      {
        result := AppendString(out.begin + i * 32);
        if result != Ready {
          return;
        }
        i := i + 1;
      }
      assert intervals[|old(intervals)|] == Storage(out);
      out := out.(stringCount := count);
      result := Ready;
    }

    /** One slot of a pool: its count, its strings and, for a heartbeat, its
        vector, all appended behind what was read before. */
    method ReadSlot(descriptor: Word64, kind: Kind, i: nat) returns (result: Result, slot: Slot)
      requires Valid() && i < SLOTS && descriptor + 0x20 + SLOTS * Stride(kind) < TWO_64
      modifies this`intervals, this`strings, this`elements
      ensures Recorded(intervals)
      ensures result.Ready? ==>
        && Valid() && old(intervals) <= intervals && old(strings) <= strings
        && slot.firstString == |old(strings)|
        && SlotRead(memory, kind, descriptor, i, slot, strings, intervals)
    {
      hide Held, WellFormed;
      slot := Slot(0, 0, |strings|, 0, NO_VECTOR);
      var firstString := |strings|;
      var references := memory.referencesAt(descriptor + 0x20 + i * Stride(kind));
      if references.None? || references.value < -1 {
        return Pool, slot;
      }
      var payload := descriptor + 0x28 + i * Stride(kind);
      SlotFits(kind, i);
      var count := StringsPerSlot(kind);
      var j := 0;
      while j < count
        invariant 0 <= j <= count
        invariant Valid() && elements == old(elements)
        invariant old(intervals) <= intervals && old(strings) <= strings && |strings| == |old(strings)| + j
        invariant forall k :: 0 <= k < j ==> strings[|old(strings)| + k].address == payload + StringOffset(kind, k)
      {
        result := AppendString(payload + StringOffset(kind, j));
        if result != Ready {
          return;
        }
        j := j + 1;
      }
      slot := Slot(references.value, payload, firstString, count, NO_VECTOR);
      if kind == Heartbeat {
        var vector;
        result, vector := Vector(payload + 0x48);
        if result != Ready {
          return;
        }
        slot := slot.(vector := vector);
      }
      result := Ready;
    }

    method ReadPool(descriptor: Word64, typ: Word16, kind: Kind) returns (result: Result, pool: TypedPool)
      requires Valid()
      modifies this`intervals, this`strings, this`elements
      ensures Recorded(intervals)
      ensures result.Ready? ==>
        && Valid() && old(intervals) <= intervals && old(strings) <= strings
        && pool.descriptor == descriptor && pool.typ == typ
        && PoolRead(memory, kind, pool, strings, intervals)
    {
      hide Held, WellFormed, SlotRead, Recorded;
      pool := TypedPool(0, 0, 0, []);
      var bytes := 0x20 + SLOTS * Stride(kind);
      if descriptor == 0 || descriptor % 8 != 0 || !memory.writable(descriptor, bytes) {
        return Descriptor, pool;
      }
      var ok := Interval(descriptor, bytes, PoolAt(descriptor));
      if !ok {
        return Descriptor, pool;
      }
      HeldGrows(memory, roots + strings, old(intervals), [Extent(descriptor, descriptor + bytes, PoolAt(descriptor))]);
      var firstFree: Word16 := NO_SLOT;
      var slots: seq<Slot> := [];
      var i := 0;
      while i < SLOTS
        invariant 0 <= i <= SLOTS && |slots| == i
        invariant Valid()
        invariant old(intervals) + [Extent(descriptor, descriptor + bytes, PoolAt(descriptor))] <= intervals
        invariant old(strings) <= strings
        invariant LeastFree(slots, firstFree)
        invariant forall k :: 0 <= k < i ==> SlotRead(memory, kind, descriptor, k, slots[k], strings, intervals)
      {
        ghost var before, extents := strings, intervals;
        var slot;
        result, slot := ReadSlot(descriptor, kind, i);
        if result != Ready {
          return;
        }
        forall k | 0 <= k < i
          ensures SlotRead(memory, kind, descriptor, k, slots[k], strings, intervals)
        {
          SlotReadGrows(memory, kind, descriptor, k, slots[k], before, extents, strings, intervals);
        }
        if slot.references == -1 && firstFree == NO_SLOT {
          firstFree := i;
        }
        slots := slots + [slot];
        i := i + 1;
      }
      assert intervals[|old(intervals)|] == Extent(descriptor, descriptor + bytes, PoolAt(descriptor));
      pool := TypedPool(descriptor, typ, firstFree, slots);
      result := Ready;
    }

    /** The three pools, each found in exactly one row of the registry, whose
        index is its type. */
    method Registry(registry: seq<Word64>, tables: seq<Word64>) returns (result: Result, pools: seq<TypedPool>)
      requires Valid() && |registry| == 256 && |tables| == 3
      modifies this`intervals, this`strings, this`elements
      ensures result.Ready? ==>
        && Valid() && old(intervals) <= intervals && old(strings) <= strings && |pools| == 3
        && forall j :: 0 <= j < 3 ==>
             && PoolRead(memory, KINDS[j], pools[j], strings, intervals)
             && OnlyRow(memory, registry, tables[j], pools[j], 256)
    {
      hide Held, WellFormed, PoolRead, Recorded, OnlyRow;
      pools := [NO_POOL, NO_POOL, NO_POOL];
      if registry[0] != 0 {
        return Descriptor, pools;
      }
      NoRowYet(memory, registry, tables);
      var i := 1;
      while i < 256
        invariant 1 <= i <= 256 && |pools| == 3 && Valid()
        invariant old(intervals) <= intervals && old(strings) <= strings
        invariant forall j :: 0 <= j < 3 ==> Placed(j, pools[j])
        invariant forall j :: 0 <= j < 3 ==> OnlyRow(memory, registry, tables[j], pools[j], i)
      {
        if registry[i] != 0 {
          var table := memory.tableAt(registry[i]);
          if table.None? {
            return Descriptor, pools;
          }
          result, pools := Row(registry, tables, pools, i, table.value);
          if result != Ready {
            return;
          }
        } else {
          SkipRow(memory, registry, tables, pools, i);
        }
        i := i + 1;
      }
      if pools[0].descriptor == 0 || pools[1].descriptor == 0 || pools[2].descriptor == 0 {
        return Descriptor, pools;
      }
      result := Ready;
    }

    /** A pool not yet found, or one read from memory. */
    ghost predicate Placed(j: nat, pool: TypedPool)
      requires j < 3
      reads this`intervals, this`strings
    {
      pool.descriptor == 0 || PoolRead(memory, KINDS[j], pool, strings, intervals)
    }

    method Row(registry: seq<Word64>, tables: seq<Word64>, found: seq<TypedPool>, i: Word16, table: Word64)
      returns (result: Result, pools: seq<TypedPool>)
      requires Valid() && |registry| == 256 && |tables| == |found| == 3 && 1 <= i < 256 && registry[i] != 0
      requires memory.tableAt(registry[i]) == Some(table)
      requires forall j :: 0 <= j < 3 ==> Placed(j, found[j])
      requires forall j :: 0 <= j < 3 ==> OnlyRow(memory, registry, tables[j], found[j], i)
      modifies this`intervals, this`strings, this`elements
      ensures |pools| == 3
      ensures result.Ready? ==>
        && Valid() && old(intervals) <= intervals && old(strings) <= strings
        && (forall j :: 0 <= j < 3 ==> Placed(j, pools[j]))
        && (forall j :: 0 <= j < 3 ==> OnlyRow(memory, registry, tables[j], pools[j], i + 1))
    {
      hide Held, WellFormed, PoolRead, Recorded;
      pools := found;
      var j := 0;
      while j < 3
        invariant 0 <= j <= 3 && |pools| == 3 && Valid()
        invariant old(intervals) <= intervals && old(strings) <= strings
        invariant forall k :: 0 <= k < 3 ==> Placed(k, pools[k])
        invariant forall k :: 0 <= k < j ==> OnlyRow(memory, registry, tables[k], pools[k], i + 1)
        invariant forall k :: j <= k < 3 ==> OnlyRow(memory, registry, tables[k], pools[k], i)
      {
        if table == tables[j] {
          var typ := memory.typeAt(registry[i]);
          if pools[j].descriptor != 0 || typ != Some(i) {
            return Descriptor, pools;
          }
          ghost var before, extents := strings, intervals;
          var pool;
          result, pool := ReadPool(registry[i], i, KINDS[j]);
          if result != Ready {
            return;
          }
          forall k | 0 <= k < 3 && pools[k].descriptor != 0
            ensures PoolRead(memory, KINDS[k], pools[k], strings, intervals)
          {
            PoolReadGrows(memory, KINDS[k], pools[k], before, extents, strings, intervals);
          }
          pools := pools[j := pool];
        }
        j := j + 1;
      }
      result := Ready;
    }

    /** The cached address text: sixteen-bit characters with a terminator. */
    method PublicIp(header: Option<TextHeader>, last: Option<nat>) returns (result: Result)
      requires Valid()
      modifies this`intervals
      ensures result.Ready? ==>
        && Valid() && old(intervals) <= intervals && header.Some?
        && TextRead(header.value, intervals) && (header.value.count > 0 ==> last == Some(0))
    {
      hide Held, WellFormed;
      if header.None? {
        return Unreadable;
      }
      var data, count, capacity := header.value.data, header.value.count, header.value.capacity;
      if count < 0 || capacity < count || (data == 0 && (count != 0 || capacity != 0)) {
        return Shape;
      }
      if capacity > CACHE_CHARS {
        return Budget;
      }
      if data != 0 {
        if data % 16 != 0 || capacity == 0 || !memory.heap(data, 2 * capacity) {
          return Alias;
        }
        var ok := Interval(data, 2 * capacity, PublicText);
        if !ok {
          return Alias;
        }
        assert intervals[|old(intervals)|] == Text(header.value);
        HeldGrows(memory, roots + strings, old(intervals), [Text(header.value)]);
      }
      if count != 0 && last != Some(0) {
        return Shape;
      }
      return Ready;
    }

    method RootStrings(at: Layout) returns (result: Result)
      requires Valid() && strings == [] && roots == []
      modifies this`intervals, this`roots
      ensures result.Ready? ==>
        && Valid() && |roots| == 4
        && roots[0].address == at.session && roots[1].address == at.token
        && roots[2].address == at.cache && roots[3].address == at.guid
    {
      hide Held, WellFormed;
      result := RootString(at.session);
      if result != Ready {
        return;
      }
      result := RootString(at.token);
      if result != Ready {
        return;
      }
      result := RootString(at.cache);
      if result != Ready {
        return;
      }
      result := RootString(at.guid);
    }

    /** One observation. `gate` is the outcome of the reads before the strings,
        `texts` whether the root texts can be read. */
    method Observe(gate: Result, found: Found) returns (result: Result, o: Observation)
      requires Valid() && strings == [] && roots == []
      modifies this
      ensures result.Ready? ==> gate == Ready && o.ids == found.ids && Consistent(memory, found.at, o)
    {
      hide Held, WellFormed, Recorded, PoolRead, OnlyRow, TasksAccepted;
      o := EMPTY;
      if gate != Ready {
        return gate, o;
      }
      result := RootStrings(found.at);
      if result != Ready {
        return;
      }
      if roots[0].size >= SESSION_BYTES || roots[1].size >= SESSION_BYTES
        || roots[2].size >= SESSION_BYTES || roots[3].size >= GUID_BYTES {
        return Budget, o;
      }
      if !found.texts {
        return Unreadable, o;
      }
      var kernel;
      result, kernel := Vector(found.at.kernel);
      if result != Ready {
        return;
      }
      ghost var kernelStrings, kernelExtents := strings, intervals;
      result := PublicIp(found.publicIp, found.lastChar);
      if result != Ready {
        return;
      }
      ghost var textExtents := intervals;
      var pools;
      result, pools := Registry(found.ids.registry, found.at.tables);
      if result != Ready {
        return;
      }
      forall p | 0 <= p < 3
        ensures |pools[p].slots| == SLOTS
      {
        PoolSlots(memory, KINDS[p], pools[p], strings, intervals);
      }
      var tasks, free;
      result, tasks, free := ReadTasks(found.tasks, found.ids, pools);
      if result != Ready {
        return;
      }
      assert pools == [pools[0], pools[1], pools[2]];
      VectorReadGrows(memory, kernel, kernelStrings, kernelExtents, strings, intervals);
      TextReadGrows(found.publicIp.value, textExtents, intervals);
      o := Observation(found.allocator, found.httpManager, found.asyncManager, found.guidBytes, found.ids,
                       roots, strings, intervals, kernel, found.publicIp.value, tasks, free, pools[0], pools[1], pools[2]);
    }
  }

  const SESSION_BYTES := 1024
  const GUID_BYTES := 37

  datatype Layout = Layout(session: Word64, token: Word64, cache: Word64, guid: Word64, kernel: Word64,
                           tables: Tables)

  type Tables = t: seq<Word64> | |t| == 3 witness [0, 0, 0]
  type Rows = r: seq<Word64> | |r| == 256 witness seq(256, _ => 0)
  type TaskRows = r: seq<Option<Task>> | |r| == 128 witness seq(128, _ => None)

  /** Everything else one observation reads. */
  datatype Found = Found(
    at: Layout, ids: Ids, texts: bool, guidBytes: seq<nat>, publicIp: Option<TextHeader>, lastChar: Option<nat>,
    tasks: TaskRows, allocator: Word64, httpManager: Word64, asyncManager: Word64)

  datatype Observation = Observation(
    allocator: Word64, httpManager: Word64, asyncManager: Word64, guidBytes: seq<nat>, ids: Ids,
    roots: seq<NativeString>, strings: seq<NativeString>, intervals: seq<Extent>,
    kernel: NativeVector, publicIp: TextHeader,
    tasks: seq<Task>, genericFree: nat, finish: TypedPool, create: TypedPool, heartbeat: TypedPool)

  const EMPTY := Observation(0, 0, 0, [], Ids(0, 0, seq(256, _ => 0)), [], [], [], NO_VECTOR,
                              TextHeader(0, 0, 0), [], 0, NO_POOL, NO_POOL, NO_POOL)

  /** What a ready observation is. */
  ghost predicate Consistent(m: Memory, at: Layout, o: Observation) {
    && Recorded(o.intervals)
    && Held(m, o.roots + o.strings, o.intervals)
    && |o.roots| == 4
    && o.roots[0].address == at.session && o.roots[1].address == at.token
    && o.roots[2].address == at.cache && o.roots[3].address == at.guid
    && o.kernel.address == at.kernel && o.kernel.firstString == 0 && VectorRead(m, o.kernel, o.strings, o.intervals)
    && TextRead(o.publicIp, o.intervals)
    && PoolRead(m, Finish, o.finish, o.strings, o.intervals)
    && PoolRead(m, Create, o.create, o.strings, o.intervals)
    && PoolRead(m, Heartbeat, o.heartbeat, o.strings, o.intervals)
    && OnlyRow(m, o.ids.registry, at.tables[0], o.finish, 256)
    && OnlyRow(m, o.ids.registry, at.tables[1], o.create, 256)
    && OnlyRow(m, o.ids.registry, at.tables[2], o.heartbeat, 256)
    && |o.tasks| == TASKS
    && TasksAccepted(o.tasks, o.ids, [o.finish, o.create, o.heartbeat])
    && o.genericFree == Idle(o.tasks)
  }

  // ---- Two passes ----

  /** The comparison of two observations. The registry itself is not part of it. */
  predicate Same(a: Observation, b: Observation) {
    a == b.(ids := b.ids.(registry := a.ids.registry))
  }

  datatype Snapshot = Refused(reason: Result) | Changed | Taken(o: Observation)

  /** A snapshot is an observation that was made twice with the same result. The host may change
      anything between and during the two passes. */
  method ReadSnapshot(m: Memory, gate: Result, found: Found, n: Memory, gateAgain: Result, foundAgain: Found)
    returns (snapshot: Snapshot, first: Observation, again: Observation)
    requires found.at == foundAgain.at
    ensures !snapshot.Refused? ==>
      && gate == gateAgain == Ready && first.ids == found.ids && again.ids == foundAgain.ids
      && Consistent(m, found.at, first) && Consistent(n, found.at, again)
      && snapshot == if Same(first, again) then Taken(first) else Changed
    ensures snapshot.Refused? ==> snapshot.reason != Ready
  {
    hide Consistent;
    again := EMPTY;
    var reader := new Observer(m);
    var result;
    result, first := reader.Observe(gate, found);
    if result != Ready {
      return Refused(result), first, again;
    }
    reader := new Observer(n);
    result, again := reader.Observe(gateAgain, foundAgain);
    snapshot := if result != Ready then Refused(result) else if Same(first, again) then Taken(first) else Changed;
  }

  /** Both passes read the header and the terminator of a string alike. */
  predicate StringAlike(m: Memory, n: Memory, s: NativeString) {
    && m.stringAt(s.address) == n.stringAt(s.address) == Some(StringHeader(s.inline, s.size, s.capacity))
    && m.byteAt(s.data + s.size) == n.byteAt(s.data + s.size) == Some(0)
  }

  predicate VectorAlike(m: Memory, n: Memory, v: NativeVector) {
    m.vectorAt(v.address) == n.vectorAt(v.address) == Some(VectorHeader(v.begin, v.end, v.capacity))
  }

  predicate CountAlike(m: Memory, n: Memory, kind: Kind, descriptor: nat, i: nat, slot: Slot) {
    var at := descriptor + 0x20 + i * Stride(kind);
    m.referencesAt(at) == n.referencesAt(at) == Some(slot.references)
  }

  /** ... and a pool's row, its table and all its reference counts. */
  predicate PoolAlike(m: Memory, n: Memory, kind: Kind, table: Word64, rows: Rows, rowsAgain: Rows, pool: TypedPool) {
    && |pool.slots| == SLOTS && 0 < pool.typ < 256
    && rows[pool.typ] == rowsAgain[pool.typ] == pool.descriptor
    && m.tableAt(pool.descriptor) == n.tableAt(pool.descriptor) == Some(table)
    && forall i :: 0 <= i < SLOTS ==> CountAlike(m, n, kind, pool.descriptor, i, pool.slots[i])
  }

  /** Whatever a snapshot says was read twice with the same answer: every string, every vector,
      every count of the three pools and where they stand in the registry. */
  lemma SnapshotReadTwice(m: Memory, n: Memory, at: Layout, o: Observation, again: Observation)
    requires Consistent(m, at, o) && Consistent(n, at, again) && Same(o, again)
    ensures forall i :: 0 <= i < |o.roots + o.strings| ==> StringAlike(m, n, (o.roots + o.strings)[i])
    ensures VectorAlike(m, n, o.kernel)
    ensures |o.heartbeat.slots| == SLOTS && forall i :: 0 <= i < SLOTS ==> VectorAlike(m, n, o.heartbeat.slots[i].vector)
    ensures PoolAlike(m, n, Finish, at.tables[0], o.ids.registry, again.ids.registry, o.finish)
    ensures PoolAlike(m, n, Create, at.tables[1], o.ids.registry, again.ids.registry, o.create)
    ensures PoolAlike(m, n, Heartbeat, at.tables[2], o.ids.registry, again.ids.registry, o.heartbeat)
  {
    hide PoolRead, OnlyRow, TasksAccepted, Recorded, PoolAlike, VectorAlike, StringAlike, Held, VectorRead;
    PoolSlots(m, Heartbeat, o.heartbeat, o.strings, o.intervals);
    StringsAlike(m, n, o.roots + o.strings, o.intervals);
    VectorsAlike(m, n, o.kernel, o.strings, o.intervals);
    PoolsAlike(m, n, Finish, at.tables[0], o.ids.registry, again.ids.registry, o.finish, o.strings, o.intervals);
    PoolsAlike(m, n, Create, at.tables[1], o.ids.registry, again.ids.registry, o.create, o.strings, o.intervals);
    PoolsAlike(m, n, Heartbeat, at.tables[2], o.ids.registry, again.ids.registry, o.heartbeat, o.strings, o.intervals);
  }

  lemma StringsAlike(m: Memory, n: Memory, strings: seq<NativeString>, extents: seq<Extent>)
    requires Held(m, strings, extents) && Held(n, strings, extents)
    ensures forall i :: 0 <= i < |strings| ==> StringAlike(m, n, strings[i])
  {
    forall i | 0 <= i < |strings|
      ensures StringAlike(m, n, strings[i])
    {
      assert WellFormed(m, strings[i]) && WellFormed(n, strings[i]);
    }
  }

  lemma VectorsAlike(m: Memory, n: Memory, v: NativeVector, strings: seq<NativeString>, extents: seq<Extent>)
    requires VectorRead(m, v, strings, extents) && VectorRead(n, v, strings, extents)
    ensures VectorAlike(m, n, v)
  {
  }

  lemma PoolsAlike(m: Memory, n: Memory, kind: Kind, table: Word64, rows: Rows, rowsAgain: Rows, pool: TypedPool,
                   strings: seq<NativeString>, extents: seq<Extent>)
    requires PoolRead(m, kind, pool, strings, extents) && PoolRead(n, kind, pool, strings, extents)
    requires OnlyRow(m, rows, table, pool, 256) && OnlyRow(n, rowsAgain, table, pool, 256)
    ensures PoolAlike(m, n, kind, table, rows, rowsAgain, pool)
    ensures kind == Heartbeat ==> forall i :: 0 <= i < SLOTS ==> VectorAlike(m, n, pool.slots[i].vector)
  {
    hide VectorRead, SlotRead, CountAlike, VectorAlike;
    forall i | 0 <= i < SLOTS
      ensures CountAlike(m, n, kind, pool.descriptor, i, pool.slots[i])
      ensures kind == Heartbeat ==> VectorAlike(m, n, pool.slots[i].vector)
    {
      SlotAlike(m, n, kind, pool.descriptor, i, pool.slots[i], strings, extents);
    }
  }

  lemma SlotAlike(m: Memory, n: Memory, kind: Kind, descriptor: nat, i: nat, slot: Slot,
                  strings: seq<NativeString>, extents: seq<Extent>)
    requires SlotRead(m, kind, descriptor, i, slot, strings, extents)
    requires SlotRead(n, kind, descriptor, i, slot, strings, extents)
    ensures CountAlike(m, n, kind, descriptor, i, slot)
    ensures kind == Heartbeat ==> VectorAlike(m, n, slot.vector)
  {
  }

  lemma PoolSlots(m: Memory, kind: Kind, pool: TypedPool, strings: seq<NativeString>, extents: seq<Extent>)
    requires PoolRead(m, kind, pool, strings, extents)
    ensures |pool.slots| == SLOTS
  {
  }

  const KINDS: seq<Kind> := [Finish, Create, Heartbeat]

  const NO_POOL := TypedPool(0, 0, 0, [])

  /** Below row `i`, the table stands in the pool's own row and in no other; in
      none at all while there is no pool. */
  ghost predicate OnlyRow(m: Memory, registry: seq<Word64>, table: Word64, pool: TypedPool, i: nat)
    requires |registry| == 256 && i <= 256
  {
    && (pool.descriptor != 0 ==> 0 < pool.typ < i && registry[pool.typ] == pool.descriptor)
    && forall r: nat :: 0 < r < i && registry[r] != 0 ==>
         (m.tableAt(registry[r]) == Some(table) <==> pool.descriptor != 0 && r == pool.typ)
  }

  lemma NoRowYet(m: Memory, registry: seq<Word64>, tables: seq<Word64>)
    requires |registry| == 256 && |tables| == 3
    ensures forall j :: 0 <= j < 3 ==> OnlyRow(m, registry, tables[j], NO_POOL, 1)
  {
  }

  lemma SkipRow(m: Memory, registry: seq<Word64>, tables: seq<Word64>, pools: seq<TypedPool>, i: nat)
    requires |registry| == 256 && |tables| == |pools| == 3 && 0 < i < 256 && registry[i] == 0
    requires forall j :: 0 <= j < 3 ==> OnlyRow(m, registry, tables[j], pools[j], i)
    ensures forall j :: 0 <= j < 3 ==> OnlyRow(m, registry, tables[j], pools[j], i + 1)
  {
  }

  lemma PoolReadGrows(m: Memory, kind: Kind, pool: TypedPool, strings: seq<NativeString>, extents: seq<Extent>,
                      moreStrings: seq<NativeString>, moreExtents: seq<Extent>)
    requires PoolRead(m, kind, pool, strings, extents)
    requires strings <= moreStrings && extents <= moreExtents
    ensures PoolRead(m, kind, pool, moreStrings, moreExtents)
  {
    forall i | 0 <= i < SLOTS
      ensures SlotRead(m, kind, pool.descriptor, i, pool.slots[i], moreStrings, moreExtents)
    {
      SlotReadGrows(m, kind, pool.descriptor, i, pool.slots[i], strings, extents, moreStrings, moreExtents);
    }
  }

  lemma SlotFits(kind: Kind, i: nat)
    requires i < SLOTS
    ensures forall j :: 0 <= j < StringsPerSlot(kind) ==>
      0x28 + i * Stride(kind) + StringOffset(kind, j) < 0x20 + SLOTS * Stride(kind)
    ensures kind == Heartbeat ==> 0x28 + i * Stride(kind) + 0x48 < 0x20 + SLOTS * Stride(kind)
  {
    assert (i + 1) * Stride(kind) <= SLOTS * Stride(kind);
  }

  // ---- Reading the tasks ----

  /** The checks on one task against those before it. A task a known pool's slot
      has no reference for is refused here; whether there are enough references
      for all of its holders is settled once the table is complete. */
  predicate TaskFits(tasks: seq<Task>, t: Task, ids: Ids, pools: seq<TypedPool>)
    requires forall p :: 0 <= p < |pools| ==> |pools[p].slots| == SLOTS
  {
    && t.state <= 5 && t.state != 1
    && (Live(t) ==>
          && Issued(ids, t)
          && (forall j :: 0 <= j < |tasks| && Live(tasks[j]) ==> tasks[j].id != t.id)
          && (forall p :: 0 <= p < |pools| && pools[p].typ == t.holder / 0x1_0000 ==>
                pools[p].slots[t.holder % 0x1_0000].references >= 1))
  }

  method Fits(tasks: seq<Task>, t: Task, ids: Ids, pools: seq<TypedPool>) returns (ok: bool)
    requires forall p :: 0 <= p < |pools| ==> |pools[p].slots| == SLOTS
    ensures ok <==> TaskFits(tasks, t, ids, pools)
  {
    if t.state > 5 || t.state == 1 {
      return false;
    }
    if t.state == 0 {
      return true;
    }
    var typ, slot := t.holder / 0x1_0000, t.holder % 0x1_0000;
    if t.id == 0 || t.id == ids.invalid || t.id > ids.issued || typ == 0 || typ >= 256
      || ids.registry[typ] == 0 || slot >= SLOTS {
      return false;
    }
    var j := 0;
    while j < |tasks|
      invariant 0 <= j <= |tasks|
      invariant forall k :: 0 <= k < j && Live(tasks[k]) ==> tasks[k].id != t.id
    {
      if tasks[j].state != 0 && t.id == tasks[j].id {
        assert Live(tasks[j]);
        return false;
      }
      j := j + 1;
    }
    var p := 0;
    while p < |pools|
      invariant 0 <= p <= |pools|
      invariant forall k :: 0 <= k < p && pools[k].typ == typ ==> pools[k].slots[slot].references >= 1
    {
      if typ == pools[p].typ && pools[p].slots[slot].references < 1 {
        return false;
      }
      p := p + 1;
    }
    return true;
  }

  ghost predicate FitInTurn(tasks: seq<Task>, ids: Ids, pools: seq<TypedPool>)
    requires forall p :: 0 <= p < |pools| ==> |pools[p].slots| == SLOTS
  {
    forall i :: 0 <= i < |tasks| ==> TaskFits(tasks[..i], tasks[i], ids, pools)
  }

  /** A consistent table passes the checks made while it is read: a live task is
      itself one of its slot's holders, so its slot has a reference. */
  lemma AcceptedFits(tasks: seq<Task>, ids: Ids, pools: seq<TypedPool>)
    requires forall p :: 0 <= p < |pools| ==> |pools[p].slots| == SLOTS
    requires TasksAccepted(tasks, ids, pools)
    ensures FitInTurn(tasks, ids, pools)
  {
    forall i | 0 <= i < |tasks|
      ensures TaskFits(tasks[..i], tasks[i], ids, pools)
    {
      var t := tasks[i];
      if Live(t) {
        var slot := t.holder % 0x1_0000;
        forall p | 0 <= p < |pools| && pools[p].typ == t.holder / 0x1_0000
          ensures pools[p].slots[slot].references >= 1
        {
          assert Counted(tasks, pools[p], slot);
          HolderCounts(tasks, i, pools[p].typ, slot);
        }
      }
    }
  }

  lemma FitsAccepted(tasks: seq<Task>, ids: Ids, pools: seq<TypedPool>)
    requires forall p :: 0 <= p < |pools| ==> |pools[p].slots| == SLOTS
    requires FitInTurn(tasks, ids, pools)
    requires forall p, k :: 0 <= p < |pools| && 0 <= k < SLOTS ==> Counted(tasks, pools[p], k)
    ensures TasksAccepted(tasks, ids, pools)
  {
    hide Counted;
    forall i | 0 <= i < |tasks|
      ensures tasks[i].state <= 5 && tasks[i].state != 1 && (Live(tasks[i]) ==> Issued(ids, tasks[i]))
    {
      assert TaskFits(tasks[..i], tasks[i], ids, pools);
    }
    forall i, j | 0 <= i < j < |tasks| && Live(tasks[i]) && Live(tasks[j])
      ensures tasks[i].id != tasks[j].id
    {
      assert TaskFits(tasks[..j], tasks[j], ids, pools);
      assert tasks[..j][i] == tasks[i];
    }
  }

  method CountHolders(tasks: seq<Task>, typ: nat, slot: nat) returns (count: nat)
    ensures count == Holders(tasks, typ, slot)
  {
    count := 0;
    var i := 0;
    while i < |tasks|
      invariant 0 <= i <= |tasks|
      invariant count == Holders(tasks[..i], typ, slot)
    {
      assert tasks[..i + 1][..i] == tasks[..i];
      if tasks[i].state != 0 && tasks[i].holder / 0x1_0000 == typ && tasks[i].holder % 0x1_0000 == slot {
        count := count + 1;
      }
      i := i + 1;
    }
    assert tasks[..i] == tasks;
  }

  method CountReferences(tasks: seq<Task>, pools: seq<TypedPool>) returns (ok: bool)
    requires forall p :: 0 <= p < |pools| ==> |pools[p].slots| == SLOTS
    ensures ok <==> forall p, k :: 0 <= p < |pools| && 0 <= k < SLOTS ==> Counted(tasks, pools[p], k)
  {
    var p := 0;
    while p < |pools|
      invariant 0 <= p <= |pools|
      invariant forall q, k :: 0 <= q < p && 0 <= k < SLOTS ==> Counted(tasks, pools[q], k)
    {
      var slot := 0;
      while slot < SLOTS
        invariant 0 <= slot <= SLOTS
        invariant forall k :: 0 <= k < slot ==> Counted(tasks, pools[p], k)
      {
        var references := CountHolders(tasks, pools[p].typ, slot);
        var counted := pools[p].slots[slot].references;
        if references != 0 && (counted < 0 || references > counted) {
          assert !Counted(tasks, pools[p], slot);
          return false;
        }
        slot := slot + 1;
      }
      p := p + 1;
    }
    return true;
  }

  /** The table is accepted exactly when all of it can be read and it is
      consistent, and then the free count is the number of idle tasks. */
  method ReadTasks(found: seq<Option<Task>>, ids: Ids, pools: seq<TypedPool>)
    returns (result: Result, tasks: seq<Task>, free: nat)
    requires forall p :: 0 <= p < |pools| ==> |pools[p].slots| == SLOTS
    ensures result.Ready? <==>
      && (forall i :: 0 <= i < |found| ==> found[i].Some?)
      && TasksAccepted(Values(found), ids, pools)
    ensures result.Ready? ==> tasks == Values(found) && free == Idle(tasks)
  {
    hide TaskFits, TasksAccepted, Counted, FitInTurn;
    tasks, free := [], 0;
    NothingFits(ids, pools);
    ghost var all := Values(found);
    var i := 0;
    while i < |found|
      invariant 0 <= i <= |found|
      invariant forall k :: 0 <= k < i ==> found[k].Some?
      invariant tasks == all[..i] && free == Idle(tasks)
      invariant FitInTurn(tasks, ids, pools)
    {
      if found[i].None? {
        return Unreadable, tasks, free;
      }
      var task := found[i].value;
      assert all[i] == task;
      var ok := Fits(tasks, task, ids, pools);
      if !ok {
        MisfitRefused(all, i, ids, pools);
        return Pool, tasks, free;
      }
      ghost var before := tasks;
      tasks := tasks + [task];
      FitNext(before, task, ids, pools);
      assert tasks[..|tasks| - 1] == before;
      if task.state == 0 {
        free := free + 1;
      }
      i := i + 1;
    }
    assert all[..i] == all;
    var ok := CountReferences(tasks, pools);
    if !ok {
      AcceptedCounts(tasks, ids, pools);
      return Pool, tasks, free;
    }
    FitsAccepted(tasks, ids, pools);
    result := Ready;
  }

  lemma NothingFits(ids: Ids, pools: seq<TypedPool>)
    requires forall p :: 0 <= p < |pools| ==> |pools[p].slots| == SLOTS
    ensures FitInTurn([], ids, pools)
  {
  }

  lemma MisfitRefused(tasks: seq<Task>, i: nat, ids: Ids, pools: seq<TypedPool>)
    requires forall p :: 0 <= p < |pools| ==> |pools[p].slots| == SLOTS
    requires i < |tasks| && !TaskFits(tasks[..i], tasks[i], ids, pools)
    ensures !TasksAccepted(tasks, ids, pools)
  {
    hide TaskFits, TasksAccepted;
    if TasksAccepted(tasks, ids, pools) {
      AcceptedFits(tasks, ids, pools);
    }
  }

  lemma FitNext(tasks: seq<Task>, t: Task, ids: Ids, pools: seq<TypedPool>)
    requires forall p :: 0 <= p < |pools| ==> |pools[p].slots| == SLOTS
    requires FitInTurn(tasks, ids, pools) && TaskFits(tasks, t, ids, pools)
    ensures FitInTurn(tasks + [t], ids, pools)
  {
    hide TaskFits;
    forall i | 0 <= i < |tasks| + 1
      ensures TaskFits((tasks + [t])[..i], (tasks + [t])[i], ids, pools)
    {
      if i < |tasks| {
        assert (tasks + [t])[..i] == tasks[..i];
      } else {
        assert (tasks + [t])[..i] == tasks;
      }
    }
  }

  lemma AcceptedCounts(tasks: seq<Task>, ids: Ids, pools: seq<TypedPool>)
    requires forall p :: 0 <= p < |pools| ==> |pools[p].slots| == SLOTS
    ensures TasksAccepted(tasks, ids, pools) ==>
      forall p, k :: 0 <= p < |pools| && 0 <= k < SLOTS ==> Counted(tasks, pools[p], k)
  {
  }

  const NO_TASK := Task(0, 0, 0)

  function Values(found: seq<Option<Task>>): (tasks: seq<Task>)
    ensures |tasks| == |found|
  {
    seq(|found|, i requires 0 <= i < |found| => if found[i].Some? then found[i].value else NO_TASK)
  }

  // ---- The next free slot ----

  ghost predicate Bounded(o: Observation) {
    && |o.heartbeat.slots| == SLOTS
    && forall i :: 0 <= i < SLOTS ==>
         && o.heartbeat.slots[i].firstString + o.heartbeat.slots[i].stringCount <= |o.strings|
         && o.heartbeat.slots[i].vector.firstString + o.heartbeat.slots[i].vector.stringCount <= |o.strings|
  }

  function Stretch(strings: seq<NativeString>, first: nat, count: nat): seq<NativeString>
    requires first + count <= |strings|
  {
    strings[first..first + count]
  }

  /** The same place, the same vector and the same strings, wherever the two
      observations keep them. */
  ghost predicate Kept(a: Observation, b: Observation, i: nat)
    requires Bounded(a) && Bounded(b) && i < SLOTS
  {
    var s, t := a.heartbeat.slots[i], b.heartbeat.slots[i];
    && s.payload == t.payload && s.stringCount == t.stringCount
    && s.vector.(firstString := 0) == t.vector.(firstString := 0)
    && Stretch(a.strings, s.firstString, s.stringCount) == Stretch(b.strings, t.firstString, t.stringCount)
    && Stretch(a.strings, s.vector.firstString, s.vector.stringCount)
       == Stretch(b.strings, t.vector.firstString, t.vector.stringCount)
  }

  method SameStrings(a: seq<NativeString>, i: nat, b: seq<NativeString>, j: nat, count: nat) returns (ok: bool)
    requires i + count <= |a| && j + count <= |b|
    ensures ok <==> Stretch(a, i, count) == Stretch(b, j, count)
  {
    var k := 0;
    while k < count
      invariant 0 <= k <= count
      invariant a[i..i + k] == b[j..j + k]
    {
      if a[i + k] != b[j + k] {
        assert Stretch(a, i, count)[k] != Stretch(b, j, count)[k];
        return false;
      }
      assert a[i..i + k + 1] == a[i..i + k] + [a[i + k]] && b[j..j + k + 1] == b[j..j + k] + [b[j + k]];
      k := k + 1;
    }
    return true;
  }

  method SameSlot(a: Observation, b: Observation, i: nat) returns (ok: bool)
    requires Bounded(a) && Bounded(b) && i < SLOTS
    ensures ok <==> Kept(a, b, i)
  {
    var s, t := a.heartbeat.slots[i], b.heartbeat.slots[i];
    if s.payload != t.payload || s.stringCount != t.stringCount || s.vector.address != t.vector.address
      || s.vector.begin != t.vector.begin || s.vector.end != t.vector.end || s.vector.capacity != t.vector.capacity
      || s.vector.stringCount != t.vector.stringCount {
      return false;
    }
    ok := SameStrings(a.strings, s.firstString, b.strings, t.firstString, s.stringCount);
    if ok {
      ok := SameStrings(a.strings, s.vector.firstString, b.strings, t.vector.firstString, s.vector.stringCount);
    }
  }

  /** The old heartbeat was released and nothing else changed. */
  ghost predicate ReleasedOnly(now: Observation, before: Observation, holder: Word32)
    requires Bounded(now) && Bounded(before) && |now.roots| == |before.roots| == 4
  {
    var slot := holder % 0x1_0000;
    && now.genericFree > 0 && now.heartbeat.firstFree < SLOTS
    && now.heartbeat.descriptor == before.heartbeat.descriptor && now.heartbeat.typ == before.heartbeat.typ
    && now.allocator == before.allocator && now.httpManager == before.httpManager
    && now.asyncManager == before.asyncManager
    && now.roots[3] == before.roots[3] && now.guidBytes == before.guidBytes
    && holder / 0x1_0000 == before.heartbeat.typ && slot < SLOTS
    && before.heartbeat.slots[slot].references == 1 && now.heartbeat.slots[slot].references == -1
    && forall i :: 0 <= i < SLOTS ==>
         && Kept(now, before, i)
         && (i != slot ==> now.heartbeat.slots[i].references == before.heartbeat.slots[i].references)
  }

  /** The checks on the slot the host will use next. */
  ghost predicate NextSlotFree(now: Observation, before: Observation, holder: Word32)
    requires Bounded(now) && Bounded(before) && now.heartbeat.firstFree < SLOTS
  {
    var slot := now.heartbeat.firstFree;
    && now.heartbeat.slots[slot].references == -1
    && (forall i :: 0 <= i < |now.tasks| ==>
          !(Live(now.tasks[i]) && now.tasks[i].holder == now.heartbeat.typ * 0x1_0000 + slot))
    && (before.heartbeat.slots[slot].references == -1 || slot == holder % 0x1_0000)
  }

  method RequireHeartbeatFirstFree(now: Observation, before: Observation, holder: Word32) returns (result: Result)
    requires Bounded(now) && Bounded(before) && |now.roots| == |before.roots| == 4
    ensures result.Ready? <==> ReleasedOnly(now, before, holder) && NextSlotFree(now, before, holder)
    ensures result.Pool? ==> ReleasedOnly(now, before, holder)
  {
    hide Bounded, Kept;
    BoundedSlots(now);
    BoundedSlots(before);
    if now.genericFree == 0 || now.heartbeat.firstFree >= SLOTS
      || now.heartbeat.descriptor != before.heartbeat.descriptor || now.heartbeat.typ != before.heartbeat.typ
      || now.allocator != before.allocator || now.httpManager != before.httpManager
      || now.asyncManager != before.asyncManager || now.roots[3] != before.roots[3]
      || now.guidBytes != before.guidBytes
      || holder / 0x1_0000 != before.heartbeat.typ || holder % 0x1_0000 >= SLOTS {
      return Provenance;
    }
    var oldSlot := holder % 0x1_0000;
    if before.heartbeat.slots[oldSlot].references != 1 || now.heartbeat.slots[oldSlot].references != -1 {
      return Provenance;
    }
    var i := 0;
    while i < SLOTS
      invariant 0 <= i <= SLOTS
      invariant forall k :: 0 <= k < i ==>
        && Kept(now, before, k)
        && (k != oldSlot ==> now.heartbeat.slots[k].references == before.heartbeat.slots[k].references)
    {
      var same := SameSlot(now, before, i);
      if !same || (i != oldSlot && now.heartbeat.slots[i].references != before.heartbeat.slots[i].references) {
        return Provenance;
      }
      i := i + 1;
    }
    var slot := now.heartbeat.firstFree;
    if now.heartbeat.slots[slot].references != -1 {
      return Pool;
    }
    var freeHolder := now.heartbeat.typ * 0x1_0000 + slot;
    var j := 0;
    while j < |now.tasks|
      invariant 0 <= j <= |now.tasks|
      invariant forall k :: 0 <= k < j ==> !(Live(now.tasks[k]) && now.tasks[k].holder == freeHolder)
    {
      if now.tasks[j].state != 0 && now.tasks[j].holder == freeHolder {
        assert Live(now.tasks[j]);
        return Pool;
      }
      j := j + 1;
    }
    result := if before.heartbeat.slots[slot].references == -1 || slot == oldSlot then Ready else Provenance;
  }

  lemma BoundedSlots(o: Observation)
    requires Bounded(o)
    ensures |o.heartbeat.slots| == SLOTS
  {
  }

  lemma ConsistentIsBounded(m: Memory, at: Layout, o: Observation)
    requires Consistent(m, at, o)
    ensures Bounded(o)
  {
    forall i | 0 <= i < SLOTS
      ensures o.heartbeat.slots[i].firstString + o.heartbeat.slots[i].stringCount <= |o.strings|
      ensures o.heartbeat.slots[i].vector.firstString + o.heartbeat.slots[i].vector.stringCount <= |o.strings|
    {
      assert SlotRead(m, Heartbeat, o.heartbeat.descriptor, i, o.heartbeat.slots[i], o.strings, o.intervals);
    }
  }

  /** No live task of a consistent observation holds a free slot of a pool. */
  lemma FreeSlotUnheld(m: Memory, at: Layout, o: Observation, slot: nat, i: nat)
    requires Consistent(m, at, o) && slot < SLOTS && i < |o.tasks|
    requires o.heartbeat.slots[slot].references == -1
    ensures !Holds(o.tasks[i], o.heartbeat.typ, slot)
  {
    var pools := [o.finish, o.create, o.heartbeat];
    assert Counted(o.tasks, pools[2], slot);
    if Holds(o.tasks[i], o.heartbeat.typ, slot) {
      HolderCounts(o.tasks, i, o.heartbeat.typ, slot);
    }
  }

  /** On consistent observations the three checks on the next slot refuse
      nothing: once only the old heartbeat was released, the slot the host uses
      next is the lower of the old one and the one that was free before. */
  lemma NextSlotForced(m: Memory, n: Memory, at: Layout, now: Observation, before: Observation, holder: Word32)
    requires Consistent(m, at, now) && Consistent(n, at, before) && Bounded(now) && Bounded(before)
    requires ReleasedOnly(now, before, holder)
    ensures NextSlotFree(now, before, holder)
    ensures var oldSlot := holder % 0x1_0000;
      now.heartbeat.firstFree == if before.heartbeat.firstFree < oldSlot then before.heartbeat.firstFree else oldSlot
  {
    hide Kept, Held, Recorded, OnlyRow, TasksAccepted, SlotRead;
    var slot := now.heartbeat.firstFree;
    forall i | 0 <= i < |now.tasks|
      ensures !(Live(now.tasks[i]) && now.tasks[i].holder == now.heartbeat.typ * 0x1_0000 + slot)
    {
      FreeSlotUnheld(m, at, now, slot, i);
    }
  }

  // ---- Nothing is owned twice ----

  /** What an observation owns storage for: a string of the roots and tables,
      the kernel vector, the vector of a heartbeat slot, the address text, a pool. */
  datatype Part = AString(i: nat) | Kernel | SlotVector(i: nat) | PublicIp | APool(kind: Kind)

  function PoolOf(o: Observation, kind: Kind): TypedPool {
    match kind case Finish => o.finish case Create => o.create case Heartbeat => o.heartbeat
  }

  function VectorStorage(v: NativeVector): Option<Extent> {
    if v.begin != 0 then Some(Storage(v)) else None
  }

  /** The storage of a part, if it has any of its own. */
  function StorageOf(o: Observation, part: Part): Option<Extent>
    requires |o.heartbeat.slots| == SLOTS && o.publicIp.capacity >= 0
  {
    match part
    case AString(i) =>
      if i < |o.roots + o.strings| && OnHeap((o.roots + o.strings)[i]) then Some(Buffer((o.roots + o.strings)[i]))
      else None
    case Kernel => VectorStorage(o.kernel)
    case SlotVector(i) => if i < SLOTS then VectorStorage(o.heartbeat.slots[i].vector) else None
    case PublicIp => if o.publicIp.data != 0 then Some(Text(o.publicIp)) else None
    case APool(kind) => Some(Body(kind, PoolOf(o, kind)))
  }

  lemma ConsistentHasStorage(m: Memory, at: Layout, o: Observation)
    requires Consistent(m, at, o)
    ensures |o.heartbeat.slots| == SLOTS && o.publicIp.capacity >= 0
  {
    hide Held, TasksAccepted, OnlyRow, Recorded, SlotRead;
  }

  lemma StorageIsRecorded(m: Memory, at: Layout, o: Observation, part: Part)
    requires Consistent(m, at, o) && |o.heartbeat.slots| == SLOTS && o.publicIp.capacity >= 0
    requires StorageOf(o, part).Some?
    ensures StorageOf(o, part).value in o.intervals
  {
    hide WellFormed, TasksAccepted, OnlyRow, Recorded;
    if part.SlotVector? {
      assert SlotRead(m, Heartbeat, o.heartbeat.descriptor, part.i, o.heartbeat.slots[part.i], o.strings, o.intervals);
    }
  }

  /** Two vectors are two: their headers stand at different places, or their
      strings start at different ones. */
  lemma VectorsDiffer(m: Memory, at: Layout, o: Observation, i: nat, j: nat)
    requires Consistent(m, at, o) && |o.heartbeat.slots| == SLOTS && i < SLOTS && j < SLOTS && i != j
    ensures Storage(o.heartbeat.slots[i].vector) != Storage(o.heartbeat.slots[j].vector)
    ensures Storage(o.heartbeat.slots[i].vector) != Storage(o.kernel)
  {
    hide Held, TasksAccepted, OnlyRow, Recorded, VectorRead;
    assert SlotRead(m, Heartbeat, o.heartbeat.descriptor, i, o.heartbeat.slots[i], o.strings, o.intervals);
    assert SlotRead(m, Heartbeat, o.heartbeat.descriptor, j, o.heartbeat.slots[j], o.strings, o.intervals);
  }

  lemma StorageApart(m: Memory, at: Layout, o: Observation, a: Part, b: Part)
    requires Consistent(m, at, o) && |o.heartbeat.slots| == SLOTS && o.publicIp.capacity >= 0
    requires a != b && StorageOf(o, a).Some? && StorageOf(o, b).Some?
    ensures Apart(StorageOf(o, a).value, StorageOf(o, b).value)
  {
    hide WellFormed, TasksAccepted, OnlyRow, PoolRead, VectorRead, TextRead;
    if a.AString? && b.AString? {
      assert Apart(StorageOf(o, a).value, StorageOf(o, b).value);
    } else {
      StorageIsRecorded(m, at, o, a);
      StorageIsRecorded(m, at, o, b);
      StorageDiffers(m, at, o, a, b);
    }
  }

  lemma StorageDiffers(m: Memory, at: Layout, o: Observation, a: Part, b: Part)
    requires Consistent(m, at, o) && |o.heartbeat.slots| == SLOTS && o.publicIp.capacity >= 0
    requires a != b && StorageOf(o, a).Some? && StorageOf(o, b).Some? && !(a.AString? && b.AString?)
    ensures StorageOf(o, a).value != StorageOf(o, b).value
  {
    hide WellFormed, TasksAccepted, OnlyRow, Recorded, Held, PoolRead, VectorRead, TextRead, Consistent;
    match (a, b)
    case (SlotVector(i), SlotVector(j)) => VectorsDiffer(m, at, o, i, j);
    case (SlotVector(i), Kernel) => VectorsDiffer(m, at, o, i, if i == 0 then 1 else 0);
    case (Kernel, SlotVector(j)) => VectorsDiffer(m, at, o, j, if j == 0 then 1 else 0);
    case _ =>
  }

  /** No address belongs to two parts of a consistent observation. */
  lemma NoAddressTwice(m: Memory, at: Layout, o: Observation, a: Part, b: Part, x: nat)
    requires Consistent(m, at, o) && a != b
    ensures |o.heartbeat.slots| == SLOTS && o.publicIp.capacity >= 0
    ensures StorageOf(o, a).Some? && StorageOf(o, b).Some? ==>
      !(Covers(StorageOf(o, a).value, x) && Covers(StorageOf(o, b).value, x))
  {
    hide Consistent, StorageOf;
    ConsistentHasStorage(m, at, o);
    if StorageOf(o, a).Some? && StorageOf(o, b).Some? {
      StorageApart(m, at, o, a, b);
    }
  }
}
