/** Which address ranges belong to one function: the rows of the image's exception directory whose
    chain of unwind records leads to the function's primary row.
 */
module CaptureScope {

  import opened Options

  const FRAGMENT_LIMIT: nat := 16
  const ROW_LIMIT: nat := 65536

  datatype Entry = Entry(begin: nat, end: nat, unwind: nat)

  datatype Extent = Extent(begin: nat, end: nat)

  /** The unwind record found at an address: its first byte, what the memory checks said about
      the whole of it, and the parent row behind its codes. */
  datatype Record = Record(first: nat, mapped: bool, parent: Option<Entry>)

  datatype Link = Unusable | Primary | Chained(parent: Entry)

  /** A readable image. `None` is a row that cannot be read. */
  datatype Image = Image(size: nat, table: seq<Option<Entry>>, records: map<nat, Record>, code: set<Extent>)

  // ---- Unwind records ----

  /** Version 1 only; of the flags either the chain flag alone or none of it. */
  function LinkOf(r: Record): Link {
    var flags := r.first / 8;
    if r.first % 8 != 1 || flags > 4 || !r.mapped then Unusable
    else if flags != 4 then Primary
    else match r.parent case None => Unusable case Some(p) => Chained(p)
  }

  predicate Plausible(image: Image, e: Entry) {
    e.begin < e.end <= image.size && e.unwind % 4 == 0
  }

  /** What one row leads to; a row that is not in the directory leads nowhere. */
  function Follow(image: Image, e: Entry): Link {
    if Plausible(image, e) && Some(e) in image.table && e.unwind in image.records then LinkOf(image.records[e.unwind])
    else Unusable
  }

  /** Where n links lead. */
  function Walk(image: Image, e: Entry, n: nat): Option<Entry> {
    if n == 0 then Some(e)
    else match Walk(image, e, n - 1)
         case None => None
         case Some(at) => match Follow(image, at) case Chained(p) => Some(p) case _ => None
  }

  predicate RootAt(image: Image, e: Entry, root: Entry, n: nat) {
    Walk(image, e, n) == Some(root) && Follow(image, root) == Primary
  }

  /** The chain is shorter than the limit and ends at this primary row. */
  predicate Reaches(image: Image, e: Entry, root: Entry) {
    exists n :: 0 <= n < FRAGMENT_LIMIT && RootAt(image, e, root, n)
  }

  lemma {:induction false} WalkOn(image: Image, e: Entry, a: nat, b: nat, k: nat)
    requires Walk(image, e, a) == Walk(image, e, b)
    ensures Walk(image, e, a + k) == Walk(image, e, b + k)
  {
    if k > 0 {
      WalkOn(image, e, a, b, k - 1);
    }
  }

  /** Beyond a primary row there is nothing, so a chain has at most one root. */
  lemma {:induction false} NothingBeyondRoot(image: Image, e: Entry, root: Entry, n: nat, m: nat)
    requires RootAt(image, e, root, n) && n < m
    ensures Walk(image, e, m) == None
  {
    if m > n + 1 {
      NothingBeyondRoot(image, e, root, n, m - 1);
    }
  }

  lemma OneRoot(image: Image, e: Entry, r: Entry, s: Entry)
    requires Reaches(image, e, r) && Reaches(image, e, s)
    ensures r == s
  {
    var n :| 0 <= n < FRAGMENT_LIMIT && RootAt(image, e, r, n);
    var m :| 0 <= m < FRAGMENT_LIMIT && RootAt(image, e, s, m);
    if n < m { NothingBeyondRoot(image, e, r, n, m); }
    if m < n { NothingBeyondRoot(image, e, s, m, n); }
  }

  /** A chain that meets itself never reaches a root: looking out for repeats loses nothing. */
  lemma {:induction false} CycleHasNoRoot(image: Image, e: Entry, i: nat, d: nat, m: nat)
    requires i < d && Walk(image, e, i) == Walk(image, e, d)
    requires forall k :: 0 <= k < d ==> Walk(image, e, k).Some? && Follow(image, Walk(image, e, k).value) != Primary
    ensures Walk(image, e, m).Some? ==> Follow(image, Walk(image, e, m).value) != Primary
    decreases m
  {
    if m >= d {
      WalkOn(image, e, i, d, m - d);
      CycleHasNoRoot(image, e, i, d, m - (d - i));
      assert i + (m - d) == m - (d - i);
    }
  }

  // ---- The directory ----

  /** Every row readable, nonempty, inside the image, and after the one before it. */
  predicate Validated(image: Image) {
    && (forall i :: 0 <= i < |image.table| ==> image.table[i].Some? && image.table[i].value.begin < image.table[i].value.end <= image.size)
    && (forall i, j :: 0 <= i < j < |image.table| ==> image.table[i].value.end <= image.table[j].value.begin)
  }

  /** The binary search never invents a row, and misses none of a validated directory. */
  method DirectoryEntry(image: Image, entry: Entry) returns (found: bool)
    ensures found ==> Some(entry) in image.table
    ensures Validated(image) ==> (found <==> Some(entry) in image.table)
  {
    var low, high := 0, |image.table|;
    while low < high
      invariant 0 <= low <= high <= |image.table|
      invariant Validated(image) ==> forall i :: 0 <= i < low ==> image.table[i].value.begin < entry.begin
      invariant Validated(image) ==> forall i :: high <= i < |image.table| ==> image.table[i].value.begin > entry.begin
    {
      var mid := low + (high - low) / 2;
      var row := image.table[mid];
      if row.None? { return false; }
      var candidate := row.value;
      if candidate.begin < entry.begin {
        low := mid + 1;
      } else if candidate.begin > entry.begin {
        high := mid;
      } else {
        assert image.table[mid] == Some(candidate);
        return candidate == entry;
      }
    }
    return false;
  }

  /** Where one row leads, with the directory searched for it. Before the directory is known to be
      in order the search may miss the row, but it never leads astray. */
  method LinkFrom(image: Image, entry: Entry) returns (link: Link)
    ensures link == Follow(image, entry) || (link == Unusable && !Validated(image))
  {
    var listed := DirectoryEntry(image, entry);
    if !Plausible(image, entry) || !listed || entry.unwind !in image.records { return Unusable; }
    return LinkOf(image.records[entry.unwind]);
  }

  /** The rows passed so far, each leading to the next, the last one to `at`. */
  predicate Trail(image: Image, start: Entry, passed: seq<Entry>, at: Entry) {
    && Walk(image, start, |passed|) == Some(at)
    && forall k :: 0 <= k < |passed| ==> Walk(image, start, k) == Some(passed[k]) && Follow(image, passed[k]).Chained?
  }

  lemma TrailGoesOn(image: Image, start: Entry, passed: seq<Entry>, at: Entry)
    requires Trail(image, start, passed, at) && Follow(image, at).Chained?
    ensures Trail(image, start, passed + [at], Follow(image, at).parent)
  {
    hide Follow;
    var longer := passed + [at];
    forall k | 0 <= k < |longer|
      ensures Walk(image, start, k) == Some(longer[k]) && Follow(image, longer[k]).Chained?
    {
      if k < |passed| { assert longer[k] == passed[k]; }
    }
  }

  method Contains(visited: array<Entry>, depth: nat, entry: Entry) returns (seen: bool)
    requires depth <= visited.Length
    ensures seen <==> entry in visited[..depth]
  {
    var i := 0;
    while i < depth
      invariant i <= depth && entry !in visited[..i]
    {
      if visited[i] == entry {
        assert visited[..depth][i] == entry;
        return true;
      }
      i := i + 1;
    }
    return false;
  }

  /** Resolves a row to its primary row within the fragment limit, cyclic data or not. */
  method RootEntry(image: Image, start: Entry) returns (root: Option<Entry>)
    ensures root.Some? ==> Reaches(image, start, root.value)
    ensures root.None? && Validated(image) ==> forall r :: !Reaches(image, start, r)
  {
    hide Follow, Walk;
    var visited := new Entry[FRAGMENT_LIMIT];
    var entry := start;
    var depth := 0;
    WalkStart(image, start);
    while depth < FRAGMENT_LIMIT
      invariant depth <= FRAGMENT_LIMIT == visited.Length
      invariant Trail(image, start, visited[..depth], entry)
      decreases FRAGMENT_LIMIT - depth
    {
      var link := LinkFrom(image, entry);
      var repeated := Contains(visited, depth, entry);
      if repeated {
        RepeatHasNoRoot(image, start, visited[..depth], entry);
        return None;
      }
      if link.Unusable? {
        if Validated(image) { DeadEnd(image, start, visited[..depth], entry); }
        return None;
      }
      if link.Primary? {
        assert RootAt(image, start, entry, depth);
        return Some(entry);
      }
      TrailGoesOn(image, start, visited[..depth], entry);
      visited[depth] := entry;
      entry := link.parent;
      depth := depth + 1;
      assert visited[..depth] == visited[..depth - 1] + [visited[depth - 1]];
    }
    TooLong(image, start, visited[..], entry);
    assert visited[..] == visited[..depth];
    return None;
  }

  lemma WalkStart(image: Image, start: Entry)
    ensures Walk(image, start, 0) == Some(start)
  {
  }

  lemma RepeatHasNoRoot(image: Image, start: Entry, passed: seq<Entry>, at: Entry)
    requires Trail(image, start, passed, at) && at in passed
    ensures forall r :: !Reaches(image, start, r)
  {
    var i :| 0 <= i < |passed| && passed[i] == at;
    hide Follow, Walk;
    forall r, n | 0 <= n < FRAGMENT_LIMIT
      ensures !RootAt(image, start, r, n)
    {
      CycleHasNoRoot(image, start, i, |passed|, n);
    }
  }

  /** Sixteen rows that all lead on: whatever comes later comes too late. */
  lemma TooLong(image: Image, start: Entry, passed: seq<Entry>, at: Entry)
    requires Trail(image, start, passed, at) && |passed| == FRAGMENT_LIMIT
    ensures forall r :: !Reaches(image, start, r)
  {
    hide Follow, Walk;
  }

  /** Nothing is reached through a row that leads nowhere. */
  lemma DeadEnd(image: Image, start: Entry, passed: seq<Entry>, at: Entry)
    requires Trail(image, start, passed, at) && Follow(image, at) == Unusable
    ensures forall r :: !Reaches(image, start, r)
  {
    hide Follow, Walk;
    forall r, n | 0 <= n < FRAGMENT_LIMIT
      ensures !RootAt(image, start, r, n)
    {
      if n > |passed| { Stuck(image, start, at, |passed|, n); }
    }
  }

  lemma {:induction false} Stuck(image: Image, start: Entry, entry: Entry, depth: nat, n: nat)
    requires Walk(image, start, depth) == Some(entry) && Follow(image, entry) == Unusable && n > depth
    ensures Walk(image, start, n) == None
  {
    if n > depth + 1 {
      Stuck(image, start, entry, depth, n - 1);
    }
  }

  // ---- The scope of a function ----

  /** The extents of the first n rows that are rooted at the primary row, in directory order. */
  ghost function Fragments(image: Image, primary: Entry, n: nat): seq<Extent>
    requires n <= |image.table| && Validated(image)
  {
    if n == 0 then []
    else
      var row := image.table[n - 1].value;
      Fragments(image, primary, n - 1) + if Reaches(image, row, primary) then [Extent(row.begin, row.end)] else []
  }

  predicate Holds(e: Entry, rva: nat) { e.begin <= rva < e.end }

  /** What the search needs to succeed: a well-formed directory, one row around the address that
      resolves to a primary row, and no more than sixteen fragments, all of them plain code. */
  ghost predicate HasScope(image: Image, rva: nat, primary: Entry) {
    && rva < image.size && 0 < |image.table| <= ROW_LIMIT && Validated(image)
    && (exists p :: 0 <= p < |image.table| && Holds(image.table[p].value, rva) && Reaches(image, image.table[p].value, primary))
    && |Fragments(image, primary, |image.table|)| <= FRAGMENT_LIMIT
    && forall k :: 0 <= k < |Fragments(image, primary, |image.table|)| ==> Fragments(image, primary, |image.table|)[k] in image.code
  }

  /** The first pass: the directory is validated while the row around the address is looked for. */
  method FindPrimary(image: Image, rva: nat) returns (primary: Option<Entry>)
    requires 0 < |image.table|
    ensures primary.Some? ==> Validated(image)
    ensures primary.Some? ==>
              exists p :: 0 <= p < |image.table| && Holds(image.table[p].value, rva) && Reaches(image, image.table[p].value, primary.value)
    ensures primary.None? && Validated(image) ==>
              forall p, r :: 0 <= p < |image.table| && Holds(image.table[p].value, rva) ==> !Reaches(image, image.table[p].value, r)
  {
    hide Reaches;
    primary := None;
    var previousEnd, matches, i := 0, 0, 0;
    ghost var p := 0;
    while i < |image.table|
      invariant i <= |image.table|
      invariant Ordered(image, i, previousEnd) && matches <= 1
      invariant matches == 0 ==> forall k :: 0 <= k < i ==> !Holds(image.table[k].value, rva)
      invariant matches != 0 ==> primary.Some? && p < i && Holds(image.table[p].value, rva) && Reaches(image, image.table[p].value, primary.value)
    {
      if image.table[i].None? { return None; }
      var entry := image.table[i].value;
      if entry.begin < previousEnd || entry.begin >= entry.end || entry.end > image.size {
        assert !Validated(image);
        return None;
      }
      previousEnd := entry.end;
      if Holds(entry, rva) {
        matches := matches + 1;
        if matches != 1 {
          assert false;
        }
        var root := RootEntry(image, entry);
        if root.None? {
          assert Validated(image) ==> forall k :: 0 <= k < |image.table| && Holds(image.table[k].value, rva) ==> k == i;
          return None;
        }
        primary, p := root, i;
      }
      i := i + 1;
    }
    if matches != 1 { return None; }
  }

  /** The first n rows are in order and end here. */
  ghost predicate Ordered(image: Image, n: nat, previousEnd: nat) {
    && n <= |image.table|
    && (forall k :: 0 <= k < n ==> image.table[k].Some? && image.table[k].value.begin < image.table[k].value.end <= image.size)
    && (forall j, k :: 0 <= j < k < n ==> image.table[j].value.end <= image.table[k].value.begin)
    && (forall k :: 0 <= k < n ==> image.table[k].value.end <= previousEnd)
    && (if n == 0 then previousEnd == 0 else image.table[n - 1].value.end == previousEnd)
  }

  /** The second pass: exactly the rows rooted at the primary row, in order. */
  method FindScope(image: Image, rva: nat) returns (scope: Option<seq<Extent>>, ghost primary: Entry)
    ensures scope.Some? ==>
              && HasScope(image, rva, primary)
              && scope.value == Fragments(image, primary, |image.table|)
              && 0 < |scope.value| <= FRAGMENT_LIMIT
    ensures scope.None? ==> forall r :: !HasScope(image, rva, r)
  {
    hide Reaches;
    primary := Entry(0, 0, 0);
    if rva >= image.size || |image.table| == 0 || |image.table| > ROW_LIMIT { return None, primary; }
    var found := FindPrimary(image, rva);
    if found.None? { return None, primary; }
    primary := found.value;
    ghost var p :| 0 <= p < |image.table| && Holds(image.table[p].value, rva) && Reaches(image, image.table[p].value, primary);
    var fragments: seq<Extent> := [];
    var i := 0;
    while i < |image.table|
      invariant i <= |image.table|
      invariant fragments == Fragments(image, found.value, i) && |fragments| <= FRAGMENT_LIMIT
      invariant forall k :: 0 <= k < |fragments| ==> fragments[k] in image.code
      invariant p < i ==> |fragments| > 0
    {
      var row := image.table[i].value;
      var root := RootEntry(image, row);
      if root == found {
        var extent := Extent(row.begin, row.end);
        if |fragments| == FRAGMENT_LIMIT || extent !in image.code {
          NoScope(image, rva, found.value, i, p);
          return None, primary;
        }
        fragments := fragments + [extent];
      } else if root.Some? && Reaches(image, row, found.value) {
        OneRoot(image, row, root.value, found.value);
      }
      i := i + 1;
    }
    return Some(fragments), primary;
  }

  lemma {:induction false} FragmentsGrow(image: Image, primary: Entry, n: nat, m: nat)
    requires n <= m <= |image.table| && Validated(image)
    ensures Fragments(image, primary, n) <= Fragments(image, primary, m)
  {
    if n < m {
      FragmentsGrow(image, primary, n, m - 1);
    }
  }

  /** A row too many, or one that is not plain code, and no scope exists at all. */
  lemma NoScope(image: Image, rva: nat, primary: Entry, i: nat, p: nat)
    requires Validated(image) && i < |image.table| && p < |image.table|
    requires Holds(image.table[p].value, rva) && Reaches(image, image.table[p].value, primary)
    requires Reaches(image, image.table[i].value, primary)
    requires |Fragments(image, primary, i)| == FRAGMENT_LIMIT
          || Extent(image.table[i].value.begin, image.table[i].value.end) !in image.code
    ensures forall r :: !HasScope(image, rva, r)
  {
    hide Reaches;
    var all := Fragments(image, primary, |image.table|);
    FragmentsGrow(image, primary, i + 1, |image.table|);
    var k := |Fragments(image, primary, i)|;
    assert all[k] == Extent(image.table[i].value.begin, image.table[i].value.end);
    forall r ensures !HasScope(image, rva, r) {
      if HasScope(image, rva, r) {
        var q :| 0 <= q < |image.table| && Holds(image.table[q].value, rva) && Reaches(image, image.table[q].value, r);
        assert p == q;
        OneRoot(image, image.table[p].value, primary, r);
      }
    }
  }

  // ---- What a scope is ----

  /** Its extents are ordered and pairwise disjoint ... */
  lemma {:induction false} FragmentsDisjoint(image: Image, primary: Entry, n: nat)
    requires n <= |image.table| && Validated(image)
    ensures Apart(Fragments(image, primary, n))
    ensures forall k :: 0 <= k < |Fragments(image, primary, n)| ==>
              n < |image.table| ==> Fragments(image, primary, n)[k].end <= image.table[n].value.begin
  {
    if n > 0 {
      hide Reaches;
      FragmentsDisjoint(image, primary, n - 1);
      var row := image.table[n - 1].value;
      var before, now := Fragments(image, primary, n - 1), Fragments(image, primary, n);
      if Reaches(image, row, primary) {
        assert now == before + [Extent(row.begin, row.end)];
      } else {
        assert now == before;
      }
      if n < |image.table| { assert row.end <= image.table[n].value.begin; }
    }
  }

  /** Nonempty, in order, and without overlap. */
  predicate Apart(f: seq<Extent>) {
    && (forall k :: 0 <= k < |f| ==> f[k].begin < f[k].end)
    && (forall j, k :: 0 <= j < k < |f| ==> f[j].end <= f[k].begin)
  }

  /** ... and are exactly the extents of the rows that resolve to the primary row. */
  lemma {:induction false} FragmentsExact(image: Image, primary: Entry, n: nat, x: Extent)
    requires n <= |image.table| && Validated(image)
    ensures x in Fragments(image, primary, n) <==>
              exists i :: 0 <= i < n && RowIs(image.table[i].value, x) && Reaches(image, image.table[i].value, primary)
  {
    if n > 0 {
      FragmentsExact(image, primary, n - 1, x);
      var row := image.table[n - 1].value;
      if x in Fragments(image, primary, n - 1) {
        var i :| 0 <= i < n - 1 && RowIs(image.table[i].value, x) && Reaches(image, image.table[i].value, primary);
      }
      if RowIs(row, x) && Reaches(image, row, primary) {
        assert x in Fragments(image, primary, n);
      }
    }
  }

  predicate RowIs(e: Entry, x: Extent) { e.begin == x.begin && e.end == x.end }
}
