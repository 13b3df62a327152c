/** Sections of an executable file: which tables are accepted, and the two lookups from a relative
    virtual address to a file offset. Addresses and sizes are 32-bit in the file; every sum of
    them is formed in 64 bits, so plain naturals say the same.
 */
module PeImage {

  import opened Options

  datatype Section = Section(virtualAddress: nat, virtualSize: nat, rawOffset: nat, rawSize: nat)

  datatype Headers = Headers(sizeOfHeaders: nat, sizeOfImage: nat, fileSize: nat, sections: seq<Section>)

  function Span(s: Section): (span: nat)
    ensures span >= s.virtualSize && span >= s.rawSize && (span == s.virtualSize || span == s.rawSize)
  {
    if s.virtualSize > s.rawSize then s.virtualSize else s.rawSize
  }

  // ---- Accepted section tables ----

  predicate Placed(h: Headers, s: Section) {
    && (s.rawSize != 0 ==> h.sizeOfHeaders <= s.rawOffset && s.rawOffset + s.rawSize <= h.fileSize)
    && s.virtualAddress + Span(s) <= h.sizeOfImage
    && (Span(s) != 0 ==> h.sizeOfHeaders <= s.virtualAddress)
  }

  /** Two half-open ranges with a common point. */
  ghost predicate Meet(a: nat, aLength: nat, b: nat, bLength: nat) {
    exists x: nat :: Within(x, a, aLength) && Within(x, b, bLength)
  }

  predicate Within(x: nat, start: nat, length: nat) { start <= x < start + length }

  ghost predicate Compatible(s: Section, t: Section) {
    && !Meet(s.virtualAddress, Span(s), t.virtualAddress, Span(t))
    && !Meet(s.rawOffset, s.rawSize, t.rawOffset, t.rawSize)
  }

  ghost predicate Accepted(h: Headers) {
    && 0 < h.sizeOfImage && h.sizeOfHeaders <= h.sizeOfImage && h.sizeOfHeaders <= h.fileSize
    && (forall i :: 0 <= i < |h.sections| ==> Placed(h, h.sections[i]))
    && (forall i, j :: 0 <= i < j < |h.sections| ==> Compatible(h.sections[i], h.sections[j]))
  }

  lemma MeetIsOverlap(a: nat, aLength: nat, b: nat, bLength: nat)
    ensures Meet(a, aLength, b, bLength) <==> aLength != 0 && bLength != 0 && b < a + aLength && a < b + bLength
  {
    if aLength != 0 && bLength != 0 && b < a + aLength && a < b + bLength {
      var x := if a < b then b else a;
      assert Within(x, a, aLength) && Within(x, b, bLength);
    }
  }

  predicate Overlapping(s: Section, t: Section) {
    || (Span(s) != 0 && Span(t) != 0
        && s.virtualAddress < t.virtualAddress + Span(t) && t.virtualAddress < s.virtualAddress + Span(s))
    || (s.rawSize != 0 && t.rawSize != 0
        && s.rawOffset < t.rawOffset + t.rawSize && t.rawOffset < s.rawOffset + s.rawSize)
  }

  lemma OverlappingIsIncompatible(s: Section, t: Section)
    ensures Overlapping(s, t) <==> !Compatible(t, s)
  {
    MeetIsOverlap(t.virtualAddress, Span(t), s.virtualAddress, Span(s));
    MeetIsOverlap(t.rawOffset, t.rawSize, s.rawOffset, s.rawSize);
    hide Meet;
  }

  /** The table is read section by section, each compared with all before it. */
  method ReadSections(h: Headers) returns (ok: bool, kept: seq<Section>)
    ensures ok <==> Accepted(h)
    ensures ok ==> kept == h.sections
  {
    hide Compatible;
    kept := [];
    if h.sizeOfImage == 0 || h.sizeOfImage < h.sizeOfHeaders || h.sizeOfHeaders > h.fileSize { return false, kept; }
    var index := 0;
    while index < |h.sections|
      invariant index <= |h.sections| && kept == h.sections[..index]
      invariant forall i :: 0 <= i < index ==> Placed(h, h.sections[i])
      invariant forall i, j :: 0 <= i < j < index ==> Compatible(h.sections[i], h.sections[j])
    {
      var section := h.sections[index];
      if section.rawSize != 0 && (section.rawOffset < h.sizeOfHeaders || section.rawOffset + section.rawSize > h.fileSize) {
        assert !Placed(h, h.sections[index]);
        return false, kept;
      }
      if section.virtualAddress + Span(section) > h.sizeOfImage
         || (Span(section) != 0 && section.virtualAddress < h.sizeOfHeaders) {
        assert !Placed(h, h.sections[index]);
        return false, kept;
      }
      var previous := 0;
      while previous < |kept|
        invariant previous <= |kept| == index
        invariant forall i :: 0 <= i < previous ==> Compatible(h.sections[i], section)
      {
        OverlappingIsIncompatible(section, kept[previous]);
        if Overlapping(section, kept[previous]) {
          assert !Compatible(h.sections[previous], h.sections[index]);
          return false, kept;
        }
        previous := previous + 1;
      }
      kept := kept + [section];
      index := index + 1;
    }
    assert h.sections[..index] == h.sections;
    return true, kept;
  }

  // ---- The lookups ----

  predicate Inside(s: Section, rva: nat) {
    s.virtualAddress <= rva < s.virtualAddress + Span(s)
  }

  /** The first section from an index on that contains the address. */
  function SectionAt(sections: seq<Section>, rva: nat, from: nat): (index: nat)
    requires from <= |sections|
    ensures from <= index <= |sections|
    ensures index < |sections| ==> Inside(sections[index], rva)
    ensures forall i :: from <= i < index ==> !Inside(sections[i], rva)
    decreases |sections| - from
  {
    if from == |sections| || Inside(sections[from], rva) then from else SectionAt(sections, rva, from + 1)
  }

  /** The reader's lookup: the section that contains the address decides. */
  function Map(h: Headers, rva: nat, needed: nat): Option<nat> {
    if rva < h.sizeOfHeaders then
      if needed <= h.sizeOfHeaders - rva && rva + needed <= h.fileSize then Some(rva) else None
    else
      var i := SectionAt(h.sections, rva, 0);
      if i == |h.sections| then None
      else
        var s := h.sections[i];
        var delta := rva - s.virtualAddress;
        if delta + needed <= s.rawSize && delta < s.rawSize && s.rawOffset + delta + needed <= h.fileSize
        then Some(s.rawOffset + delta) else None
  }

  /** The whole range lies in one section's span. */
  predicate Covers(s: Section, rva: nat, size: nat) {
    Inside(s, rva) && rva + size <= s.virtualAddress + Span(s)
  }

  function CoverAt(sections: seq<Section>, rva: nat, size: nat, from: nat): (index: nat)
    requires from <= |sections|
    ensures from <= index <= |sections|
    ensures index < |sections| ==> Covers(sections[index], rva, size)
    ensures forall i :: from <= i < index ==> !Covers(sections[i], rva, size)
    decreases |sections| - from
  {
    if from == |sections| || Covers(sections[from], rva, size) then from else CoverAt(sections, rva, size, from + 1)
  }

  /** The image's lookup: a section that covers the whole range is looked for. */
  function MapImage(h: Headers, rva: nat, size: nat): Option<nat> {
    if rva + size > h.sizeOfImage || rva == h.sizeOfImage then None
    else if rva < h.sizeOfHeaders then
      if size <= h.sizeOfHeaders - rva && rva + size <= h.fileSize then Some(rva) else None
    else
      var i := CoverAt(h.sections, rva, size, 0);
      if i == |h.sections| then None
      else
        var s := h.sections[i];
        var delta := rva - s.virtualAddress;
        if delta + size <= s.rawSize && s.rawOffset + delta + size <= h.fileSize then Some(s.rawOffset + delta) else None
  }

  method MapRva(h: Headers, rva: nat, needed: nat) returns (offset: Option<nat>, available: nat)
    requires h.sizeOfHeaders <= h.fileSize
    ensures offset == Map(h, rva, needed)
    ensures offset.Some? ==> needed <= available && offset.value + available <= h.fileSize
  {
    if rva < h.sizeOfHeaders {
      var mapped := if h.sizeOfHeaders - rva < h.fileSize - rva then h.sizeOfHeaders - rva else h.fileSize - rva;
      if needed > mapped { return None, 0; }
      return Some(rva), mapped;
    }
    var i := 0;
    while i < |h.sections|
      invariant i <= |h.sections|
      invariant SectionAt(h.sections, rva, 0) == SectionAt(h.sections, rva, i)
    {
      var s := h.sections[i];
      if rva < s.virtualAddress || rva - s.virtualAddress >= Span(s) {
        i := i + 1;
        continue;
      }
      var delta := rva - s.virtualAddress;
      if delta >= s.rawSize { return None, 0; }
      var raw := s.rawOffset + delta;
      var sectionAvailable := s.rawSize - delta;
      if needed > sectionAvailable || raw + needed > h.fileSize { return None, 0; }
      return Some(raw), if sectionAvailable < h.fileSize - raw then sectionAvailable else h.fileSize - raw;
    }
    return None, 0;
  }

  method FindSection(h: Headers, rva: nat, size: nat) returns (index: nat)
    ensures index == CoverAt(h.sections, rva, size, 0)
  {
    index := 0;
    while index < |h.sections|
      invariant index <= |h.sections|
      invariant CoverAt(h.sections, rva, size, 0) == CoverAt(h.sections, rva, size, index)
    {
      var s := h.sections[index];
      if s.virtualAddress <= rva && rva - s.virtualAddress < Span(s) && size <= Span(s) - (rva - s.virtualAddress) { return; }
      index := index + 1;
    }
  }

  method MapImageRva(h: Headers, rva: nat, size: nat) returns (offset: Option<nat>)
    requires h.sizeOfHeaders <= h.sizeOfImage
    ensures offset == MapImage(h, rva, size)
  {
    if rva >= h.sizeOfImage || size > h.sizeOfImage - rva { return None; }
    var raw := 0;
    if rva < h.sizeOfHeaders {
      if size > h.sizeOfHeaders - rva { return None; }
      raw := rva;
    } else {
      var i := FindSection(h, rva, size);
      if i == |h.sections| { return None; }
      var s := h.sections[i];
      if rva - s.virtualAddress > s.rawSize || size > s.rawSize - (rva - s.virtualAddress) { return None; }
      raw := s.rawOffset + (rva - s.virtualAddress);
    }
    if raw > h.fileSize || size > h.fileSize - raw { return None; }
    return Some(raw);
  }

  /** Whether a range exists once loaded, with or without bytes in the file. */
  predicate Mapped(h: Headers, rva: nat, needed: nat) {
    if rva < h.sizeOfHeaders then needed <= h.sizeOfHeaders - rva
    else CoverAt(h.sections, rva, needed, 0) < |h.sections|
  }

  // ---- What acceptance is worth ----

  lemma OneSection(h: Headers, i: nat, j: nat, rva: nat)
    requires Accepted(h) && i < |h.sections| && j < |h.sections|
    requires Inside(h.sections[i], rva) && Inside(h.sections[j], rva)
    ensures i == j
  {
    assert Within(rva, h.sections[i].virtualAddress, Span(h.sections[i]));
    assert Within(rva, h.sections[j].virtualAddress, Span(h.sections[j]));
    if i < j {
      assert Compatible(h.sections[i], h.sections[j]);
      assert Meet(h.sections[i].virtualAddress, Span(h.sections[i]), h.sections[j].virtualAddress, Span(h.sections[j]));
    }
    if j < i {
      assert Compatible(h.sections[j], h.sections[i]);
      assert Meet(h.sections[j].virtualAddress, Span(h.sections[j]), h.sections[i].virtualAddress, Span(h.sections[i]));
    }
  }

  /** A mapped range lies in the file, and exists once loaded. */
  lemma MapInBounds(h: Headers, rva: nat, needed: nat)
    requires Accepted(h) && Map(h, rva, needed).Some?
    ensures Map(h, rva, needed).value + needed <= h.fileSize
    ensures Mapped(h, rva, needed) && rva + needed <= h.sizeOfImage
  {
    if rva >= h.sizeOfHeaders {
      var i := SectionAt(h.sections, rva, 0);
      assert Placed(h, h.sections[i]) && Covers(h.sections[i], rva, needed);
    }
  }

  /** Two addresses never share a byte of the file, header and sections included. */
  lemma MapInjective(h: Headers, a: nat, b: nat)
    requires Accepted(h) && Map(h, a, 1).Some? && Map(h, a, 1) == Map(h, b, 1)
    ensures a == b
  {
    var i, j := SectionAt(h.sections, a, 0), SectionAt(h.sections, b, 0);
    if a >= h.sizeOfHeaders { assert Placed(h, h.sections[i]); }
    if b >= h.sizeOfHeaders { assert Placed(h, h.sections[j]); }
    if a >= h.sizeOfHeaders && b >= h.sizeOfHeaders {
      var s, t := h.sections[i], h.sections[j];
      var raw := Map(h, a, 1).value;
      assert Within(raw, s.rawOffset, s.rawSize) && Within(raw, t.rawOffset, t.rawSize);
      assert Meet(s.rawOffset, s.rawSize, t.rawOffset, t.rawSize);
      assert Meet(t.rawOffset, t.rawSize, s.rawOffset, s.rawSize);
      assert i == j;
    }
  }

  /** A mapped range is mapped byte by byte. */
  lemma MapBytewise(h: Headers, rva: nat, needed: nat, k: nat)
    requires Accepted(h) && Map(h, rva, needed).Some? && k < needed
    ensures Map(h, rva + k, 1) == Some(Map(h, rva, needed).value + k)
  {
    if rva >= h.sizeOfHeaders {
      var i := SectionAt(h.sections, rva, 0);
      assert Inside(h.sections[i], rva + k);
      OneSection(h, i, SectionAt(h.sections, rva + k, 0), rva + k);
    }
  }

  lemma SameSection(h: Headers, rva: nat, size: nat)
    requires Accepted(h) && CoverAt(h.sections, rva, size, 0) < |h.sections|
    ensures CoverAt(h.sections, rva, size, 0) == SectionAt(h.sections, rva, 0)
  {
    var i := CoverAt(h.sections, rva, size, 0);
    OneSection(h, i, SectionAt(h.sections, rva, 0), rva);
  }

  /** The two lookups agree on every range that is not empty. */
  lemma LookupsAgree(h: Headers, rva: nat, size: nat)
    requires Accepted(h) && size > 0
    ensures Map(h, rva, size) == MapImage(h, rva, size)
  {
    if rva >= h.sizeOfHeaders {
      var i := SectionAt(h.sections, rva, 0);
      if i < |h.sections| {
        assert Placed(h, h.sections[i]);
        if Covers(h.sections[i], rva, size) {
          OneSection(h, i, CoverAt(h.sections, rva, size, 0), rva);
        }
      }
      if CoverAt(h.sections, rva, size, 0) < |h.sections| { SameSection(h, rva, size); }
    }
  }

  /** The end of a section's bytes, where the section itself goes on. */
  predicate AtRawEnd(h: Headers, s: Section, rva: nat) {
    && rva == s.virtualAddress + s.rawSize && s.rawSize < Span(s)
    && s.rawOffset + s.rawSize <= h.fileSize
  }

  /** On empty ranges they part at exactly one kind of address. */
  lemma EmptyLookupsAgree(h: Headers, rva: nat)
    requires Accepted(h)
    ensures Map(h, rva, 0) != MapImage(h, rva, 0) <==>
              rva >= h.sizeOfHeaders && exists i :: 0 <= i < |h.sections| && AtRawEnd(h, h.sections[i], rva)
  {
    if rva >= h.sizeOfHeaders {
      var i := SectionAt(h.sections, rva, 0);
      if i < |h.sections| {
        assert Placed(h, h.sections[i]) && Covers(h.sections[i], rva, 0);
        OneSection(h, i, CoverAt(h.sections, rva, 0, 0), rva);
        if j :| 0 <= j < |h.sections| && AtRawEnd(h, h.sections[j], rva) {
          OneSection(h, i, j, rva);
        }
      } else {
        assert forall j :: 0 <= j < |h.sections| ==> !Covers(h.sections[j], rva, 0);
      }
    }
  }

  /** There are such images. */
  lemma EmptyLookupsCanDiffer() returns (h: Headers)
    ensures Accepted(h) && Map(h, 0x1010, 0) == None && MapImage(h, 0x1010, 0) == Some(0x410)
  {
    var s := Section(0x1000, 0x20, 0x400, 0x10);
    h := Headers(0x400, 0x2000, 0x410, [s]);
    assert Placed(h, s) && Inside(s, 0x1010) && Covers(s, 0x1010, 0);
    assert SectionAt([s], 0x1010, 0) == 0 && CoverAt([s], 0x1010, 0, 0) == 0;
  }
}
