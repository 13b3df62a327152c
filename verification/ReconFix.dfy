/** The one-operand correction of a function in memory: qualify, open the page, write four bytes,
    verify, close, flush, and verify again; or undo it and prove that it is undone.

    Reads and queries may fail, and then say nothing; when they succeed they are truthful.
    Protection changes and writes may do what they were asked or not, whatever they report.
 */
module ReconFix {

  newtype Byte = x: int | 0 <= x < 256

  datatype Protection = ExecuteRead | ExecuteReadWrite | ExecuteWriteCopy | OtherProtection(code: nat)

  datatype Mode = PassiveMode | ActiveMode

  datatype Outcome = Passive | Disabled | Active | RolledBack | Fatal

  datatype Reason =
    | NoReason | InvalidContext | StartupRejected | UnsupportedHost | IdentityRejected(code: nat)
    | CodeUnreadable | FunctionMismatch | ConstantMismatch | ProtectionMismatch | PreparedDigestMismatch
    | ProtectFailed | WriteFailed | ReadbackFailed | RestoreFailed | FlushFailed | RollbackFailed

  datatype Result = Result(outcome: Outcome, reason: Reason, qualified: bool)

  type Digest = nat

  datatype Profile = Profile(
    functionRva: nat, functionSize: nat, loadRva: nat, operandRva: nat, constantRva: nat,
    oldDisplacement: nat, newDisplacement: nat,
    originalWindow: seq<Byte>, constantBytes: seq<Byte>,
    hostDigest: Digest, originalDigest: Digest, correctedDigest: Digest)

  const FUNCTION_CAPACITY: nat := 1024
  const WINDOW: nat := 12
  const CONSTANT: nat := 16
  const WORD: int := 0x1_0000_0000

  /** The fixed widths of a profile's fields. */
  predicate Typed(p: Profile) {
    && |p.originalWindow| == WINDOW && |p.constantBytes| == CONSTANT
    && p.oldDisplacement < WORD && p.newDisplacement < WORD
  }

  /** Two's complement reading of a 32-bit word. */
  function Signed(word: nat): int { if word < 0x8000_0000 then word else word - WORD }

  predicate ProfileValid(p: Profile, imageSize: nat)
    requires Typed(p)
  {
    && 0 < p.functionSize <= FUNCTION_CAPACITY
    && p.functionRva + p.functionSize <= imageSize
    && p.constantRva + |p.constantBytes| <= imageSize
    && p.functionRva <= p.loadRva
    && p.loadRva + |p.originalWindow| <= p.functionRva + p.functionSize
    && p.operandRva == p.loadRva + 4 && p.operandRva % 4 == 0
    && p.loadRva + 8 + Signed(p.newDisplacement) == p.constantRva
  }

  // ---- Displacements in memory ----

  function Encode(word: nat): (bytes: seq<Byte>)
    requires word < WORD
    ensures |bytes| == 4
  {
    [(word % 256) as Byte, (word / 256 % 256) as Byte, (word / 256 / 256 % 256) as Byte, (word / 256 / 256 / 256) as Byte]
  }

  function Decode(bytes: seq<Byte>): (word: nat)
    requires |bytes| == 4
    ensures word < WORD
  {
    bytes[0] as nat + 256 * (bytes[1] as nat + 256 * (bytes[2] as nat + 256 * bytes[3] as nat))
  }

  lemma DecodeEncode(word: nat)
    requires word < WORD
    ensures Decode(Encode(word)) == word
  {
  }

  function Offset(p: Profile): nat
    requires p.functionRva <= p.operandRva
  {
    p.operandRva - p.functionRva
  }

  /** The four bytes at an offset replaced by a word. */
  function Patched(code: seq<Byte>, at: nat, word: nat): (patched: seq<Byte>)
    requires at + 4 <= |code| && word < WORD
    ensures |patched| == |code|
  {
    code[..at] + Encode(word) + code[at + 4..]
  }

  /** The corrected instruction loads the constant; every other byte is what it was. */
  lemma CorrectionReachesConstant(p: Profile, imageSize: nat, code: seq<Byte>)
    requires Typed(p) && ProfileValid(p, imageSize) && |code| == p.functionSize
    ensures var patched := Patched(code, Offset(p), p.newDisplacement);
            && p.loadRva + 8 + Signed(Decode(patched[Offset(p)..Offset(p) + 4])) == p.constantRva
            && forall k :: 0 <= k < |code| && !(Offset(p) <= k < Offset(p) + 4) ==> patched[k] == code[k]
  {
    var patched := Patched(code, Offset(p), p.newDisplacement);
    assert patched[Offset(p)..Offset(p) + 4] == Encode(p.newDisplacement);
    DecodeEncode(p.newDisplacement);
  }

  /** Writing the old word back is the exact inverse of the correction, and writing either word
      over the other leaves one of the two images. */
  lemma RevertRestores(code: seq<Byte>, at: nat, oldWord: nat, newWord: nat)
    requires at + 4 <= |code| && oldWord < WORD && newWord < WORD && code[at..at + 4] == Encode(oldWord)
    ensures Patched(Patched(code, at, newWord), at, oldWord) == code
    ensures Patched(code, at, oldWord) == code
    ensures Patched(Patched(code, at, newWord), at, newWord) == Patched(code, at, newWord)
  {
    assert code == code[..at] + code[at..at + 4] + code[at + 4..];
  }

  // ---- The host process ----

  datatype Event = Protected(to: Protection) | Wrote(word: nat) | Flushed

  predicate Writable(p: Protection) { p == ExecuteReadWrite || p == ExecuteWriteCopy }

  class Host {
    const imageSize: nat
    const profile: Profile
    const hash: seq<Byte> -> Digest
    const hostDigest: Digest
    const constant: seq<Byte>
    const reliable: bool         // every operation works and reports it
    const startupOk: bool        // what the checks left abstract find when they are reliable
    const sectionsOk: bool
    const identityOk: bool
    var code: seq<Byte>          // the bytes of the function
    var page: Protection         // of the page of the operand
    const rest: Protection       // of the function's other pages
    ghost var log: seq<Event>

    constructor (imageSize: nat, profile: Profile, hash: seq<Byte> -> Digest, hostDigest: Digest,
                 constant: seq<Byte>, code: seq<Byte>, page: Protection, rest: Protection,
                 reliable: bool, startupOk: bool, sectionsOk: bool, identityOk: bool)
      ensures this.code == code && this.page == page && log == []
    {
      this.imageSize, this.profile, this.hash, this.hostDigest := imageSize, profile, hash, hostDigest;
      this.constant, this.code, this.page, this.rest := constant, code, page, rest;
      this.reliable, this.startupOk, this.sectionsOk, this.identityOk := reliable, startupOk, sectionsOk, identityOk;
      log := [];
    }

    predicate Fits()
      reads this`code
    {
      Typed(profile) && ProfileValid(profile, imageSize) && |code| == profile.functionSize && |constant| == CONSTANT
    }

    /** A check that can fail for no reason; passing it means the fact holds. */
    method Check(fact: bool) returns (ok: bool)
      ensures ok ==> fact
      ensures reliable ==> ok == fact
    {
      var transient: bool := *;
      ok := fact && (reliable || !transient);
    }

    method Read() returns (ok: bool, bytes: seq<Byte>)
      ensures ok ==> bytes == code
      ensures reliable ==> ok
    {
      ok := Check(true);
      bytes := if ok then code else [];
    }

    method Hash(bytes: seq<Byte>) returns (ok: bool, digest: Digest)
      ensures ok ==> digest == hash(bytes)
      ensures reliable ==> ok
    {
      ok := Check(true);
      digest := if ok then hash(bytes) else 0;
    }

    method OriginalProtection() returns (ok: bool)
      ensures ok ==> page == ExecuteRead && rest == ExecuteRead
      ensures reliable ==> ok == (page == ExecuteRead && rest == ExecuteRead)
    {
      ok := Check(page == ExecuteRead && rest == ExecuteRead);
    }

    method WritableCode() returns (ok: bool)
      ensures ok ==> Writable(page)
      ensures reliable ==> ok == Writable(page)
    {
      ok := Check(page == ExecuteReadWrite);
      if !ok { ok := Check(page == ExecuteWriteCopy); }
    }

    method BytesEqual(expected: seq<Byte>) returns (ok: bool)
      ensures ok ==> code == expected
      ensures reliable ==> ok == (code == expected)
    {
      var read, bytes := Read();
      ok := read && bytes == expected;
    }

    method ConstantMatches() returns (ok: bool)
      ensures ok ==> constant == profile.constantBytes
      ensures reliable && sectionsOk ==> ok == (constant == profile.constantBytes)
    {
      ok := Check(sectionsOk);
      if ok { ok := Check(constant == profile.constantBytes); }
    }

    method Protect(to: Protection) returns (ok: bool, previous: Protection)
      modifies this`page, this`log
      ensures page == to || page == old(page)
      ensures reliable ==> ok && page == to && previous == old(page)
      ensures log == old(log) + [Protected(to)]
    {
      var happens: bool := *;
      ok, previous := *, *;
      if reliable { ok, previous, happens := true, page, true; }
      if happens { page := to; }
      log := log + [Protected(to)];
    }

    /** The interlocked store: only ever into a page that was seen writable. */
    method WriteDword(word: nat) returns (ok: bool)
      requires Fits() && Writable(page) && word < WORD
      modifies this`code, this`log
      ensures code == Patched(old(code), Offset(profile), word) || code == old(code)
      ensures reliable ==> ok && code == Patched(old(code), Offset(profile), word)
      ensures log == old(log) + [Wrote(word)]
    {
      var happens: bool := *;
      ok := *;
      if reliable { ok, happens := true, true; }
      if happens { code := Patched(code, Offset(profile), word); }
      log := log + [Wrote(word)];
    }

    method Flush() returns (ok: bool)
      modifies this`log
      ensures log == old(log) + if ok then [Flushed] else []
      ensures reliable ==> ok
    {
      ok := Check(true);
      if ok { log := log + [Flushed]; }
    }

    method ValidateIdentity() returns (reason: Reason)
      ensures reliable ==> (reason == NoReason <==> identityOk)
      ensures reason == NoReason || reason.IdentityRejected?
    {
      var ok := Check(identityOk);
      if ok { return NoReason; }
      var code: nat := *;
      return IdentityRejected(code);
    }

    // ---- The transaction ----

    /** Everything that can be known before anything is touched. */
    method Qualify() returns (reason: Reason, original: seq<Byte>)
      requires Typed(profile) && |constant| == CONSTANT && |code| == profile.functionSize
      ensures reason == NoReason ==> Qualified() && original == code
      ensures reliable ==> (reason == NoReason <==> Qualified() && startupOk && sectionsOk && identityOk)
      ensures reason == InvalidContext <==> !ProfileValid(profile, imageSize)
    {
      original := [];
      if !ProfileValid(profile, imageSize) { return InvalidContext, original; }
      if hostDigest != profile.hostDigest { return UnsupportedHost, original; }
      var ok := Check(startupOk);
      if !ok { return StartupRejected, original; }
      ok := OriginalProtection();
      if ok { ok := Check(sectionsOk); }
      if !ok { return ProtectionMismatch, original; }
      ok, original := Read();
      if !ok { return CodeUnreadable, original; }
      reason := ExamineBytes(original);
      if reason != NoReason { return; }
      reason := ValidateIdentity();
      if reason != NoReason { return; }
      ok := Check(startupOk);
      if !ok { return StartupRejected, original; }
      ok := OriginalProtection();
      if ok { ok := BytesEqual(original); }
      if ok { ok := ConstantMatches(); }
      return if ok then NoReason else ReadbackFailed, original;
    }

    /** The function is the known one, and its correction would be the known one. */
    method ExamineBytes(original: seq<Byte>) returns (reason: Reason)
      requires Fits() && original == code
      ensures reason == NoReason ==> Known()
      ensures reliable ==> (reason == NoReason <==> Known())
      ensures reason == NoReason || reason == FunctionMismatch || reason == ConstantMismatch || reason == PreparedDigestMismatch
    {
      var at := Offset(profile);
      var ok, digest := Hash(original);
      if !ok || digest != profile.originalDigest
         || original[at - 4..at - 4 + WINDOW] != profile.originalWindow
         || original[at..at + 4] != Encode(profile.oldDisplacement) { return FunctionMismatch; }
      ok := Check(constant == profile.constantBytes);
      if !ok { return ConstantMismatch; }
      ok, digest := Hash(Patched(original, at, profile.newDisplacement));
      if !ok || digest != profile.correctedDigest { return PreparedDigestMismatch; }
      return NoReason;
    }

    /** The bytes are the profile's, before and after the correction. */
    predicate Known()
      requires Fits()
      reads this`code
    {
      var at := Offset(profile);
      && hash(code) == profile.originalDigest
      && code[at - 4..at - 4 + WINDOW] == profile.originalWindow
      && code[at..at + 4] == Encode(profile.oldDisplacement)
      && hash(Patched(code, at, profile.newDisplacement)) == profile.correctedDigest
      && constant == profile.constantBytes
    }

    predicate Qualified()
      reads this`code, this`page
    {
      && Fits() && hostDigest == profile.hostDigest && Known()
      && page == ExecuteRead && rest == ExecuteRead
    }

    /** The correction itself, from the first protection change to the verdict. `attempted` says
        whether a write was begun; `done` that the correction is in place, closed and flushed. */
    method Correct(original: seq<Byte>) returns (done: bool, failure: Reason, attempted: bool)
      requires Qualified() && original == code
      modifies this`code, this`page, this`log
      ensures Fits() && (code == original || code == Corrected(original))
      ensures done ==> code == Corrected(original) && page == ExecuteRead && attempted
      ensures done ==> log == old(log) + [Protected(ExecuteReadWrite), Wrote(profile.newDisplacement), Protected(ExecuteRead), Flushed]
      ensures !attempted ==> code == original && log == old(log) + [Protected(ExecuteReadWrite)]
      ensures attempted ==> old(log) + [Protected(ExecuteReadWrite), Wrote(profile.newDisplacement)] <= log
      ensures !done ==> failure != NoReason
      ensures reliable && startupOk && sectionsOk && identityOk ==> done
    {
      attempted, done := false, false;
      var ok, previous := Protect(ExecuteReadWrite);
      if !ok { return false, ProtectFailed, false; }
      if previous != ExecuteRead { return false, ProtectionMismatch, false; }
      ok := WritableCode();
      if !ok { return false, ProtectionMismatch, false; }
      ok := Check(startupOk);
      if !ok { return false, StartupRejected, false; }
      ok := BytesEqual(original);
      if !ok { return false, ReadbackFailed, false; }
      failure := Write(original);
      attempted := true;
      if failure == NoReason { failure := Close(original); }
      done := failure == NoReason;
    }

    ghost function Corrected(original: seq<Byte>): seq<Byte>
      requires Typed(profile) && ProfileValid(profile, imageSize) && |original| == profile.functionSize
    {
      Patched(original, Offset(profile), profile.newDisplacement)
    }

    method Write(original: seq<Byte>) returns (failure: Reason)
      requires Fits() && code == original && Writable(page)
      modifies this`code, this`log
      ensures Fits() && (code == original || code == Corrected(original))
      ensures log == old(log) + [Wrote(profile.newDisplacement)]
      ensures failure == NoReason ==> code == Corrected(original)
      ensures reliable && sectionsOk && constant == profile.constantBytes ==> failure == NoReason
    {
      var ok := WriteDword(profile.newDisplacement);
      if !ok { return WriteFailed; }
      ok := BytesEqual(Patched(original, Offset(profile), profile.newDisplacement));
      if !ok { return ReadbackFailed; }
      ok := ConstantMatches();
      return if ok then NoReason else ConstantMismatch;
    }

    /** The page closed, everything read again, the instruction cache flushed, the file verified. */
    method Close(original: seq<Byte>) returns (failure: Reason)
      requires Fits() && |original| == |code| && code == Corrected(original)
      modifies this`page, this`log
      ensures old(log) <= log
      ensures failure == NoReason ==> page == ExecuteRead && log == old(log) + [Protected(ExecuteRead), Flushed]
      ensures reliable && sectionsOk && identityOk && constant == profile.constantBytes && rest == ExecuteRead ==> failure == NoReason
    {
      var ok, _ := Protect(ExecuteRead);
      if ok { ok := OriginalProtection(); }
      if ok { ok := BytesEqual(Patched(original, Offset(profile), profile.newDisplacement)); }
      if !ok { return RestoreFailed; }
      ok := ConstantMatches();
      if !ok { return ConstantMismatch; }
      ok := Flush();
      if !ok { return FlushFailed; }
      failure := ValidateIdentity();
    }

    method OriginalState(original: seq<Byte>) returns (proven: bool)
      ensures proven ==> page == ExecuteRead && rest == ExecuteRead && code == original
      ensures reliable ==> proven == (page == ExecuteRead && rest == ExecuteRead && code == original)
    {
      proven := OriginalProtection();
      if proven { proven := BytesEqual(original); }
    }

    /** Nothing was written: it is enough to prove the original state, closing the page if needed. */
    method RecoverWithoutWrite(original: seq<Byte>) returns (recovered: bool)
      requires code == original
      modifies this`page, this`log
      ensures recovered ==> page == ExecuteRead && rest == ExecuteRead
      ensures log == old(log) || log == old(log) + [Protected(ExecuteRead)]
      ensures reliable && rest == ExecuteRead && (old(page) == ExecuteRead || Writable(old(page))) ==> recovered
    {
      recovered := OriginalState(original);
      if !recovered { recovered := OriginalState(original); }
      if recovered { return; }
      var open := WritableCode();
      if !open { return false; }
      var _, _ := Protect(ExecuteRead);
      recovered := OriginalState(original);
      if !recovered { recovered := OriginalState(original); }
    }

    /** A write was begun: one bounded attempt to put the old word back and prove it. */
    method Rollback(original: seq<Byte>) returns (restored: bool)
      requires Fits() && |original| == |code|
      modifies this`code, this`page, this`log
      ensures old(log) <= log
      ensures restored ==>
                && code == original && page == ExecuteRead && rest == ExecuteRead
                && log == old(log) + [Protected(ExecuteReadWrite), Wrote(profile.oldDisplacement), Protected(ExecuteRead), Flushed]
      ensures reliable && rest == ExecuteRead && Patched(old(code), Offset(profile), profile.oldDisplacement) == original
              ==> restored
    {
      var ok, previous := Protect(ExecuteReadWrite);
      if ok { ok := WritableCode(); }
      if !ok { return false; }
      ok := WriteDword(profile.oldDisplacement);
      if ok { ok := BytesEqual(original); }
      if !ok { return false; }
      ok, previous := Protect(ExecuteRead);
      if ok { ok := OriginalState(original); }
      if !ok { return false; }
      restored := Flush();
    }

    /** Corrected, provably original, or fatal: there is no fourth end. */
    method RunReconFix(mode: Mode) returns (result: Result)
      requires Typed(profile) && |constant| == CONSTANT && |code| == profile.functionSize
      modifies this`code, this`page, this`log
      ensures result.outcome == Active ==>
                && mode == ActiveMode && result.qualified && result.reason == NoReason
                && Fits() && old(Qualified()) && code == Corrected(old(code))
                && page == ExecuteRead && rest == ExecuteRead && constant == profile.constantBytes
                && hash(code) == profile.correctedDigest
                && log == old(log) + [Protected(ExecuteReadWrite), Wrote(profile.newDisplacement), Protected(ExecuteRead), Flushed]
      ensures result.outcome == Passive || result.outcome == Disabled || result.outcome == RolledBack ==>
                code == old(code) && page == old(page)
      ensures result.outcome == Passive || !result.qualified ==> log == old(log)
      ensures result.outcome == Passive ==> result.qualified && mode == PassiveMode && result.reason == NoReason
      ensures result.qualified ==> old(Qualified())
      ensures mode == PassiveMode ==> result.outcome == Passive || result.outcome == Disabled
      ensures result.outcome == Disabled ==> result.reason != NoReason && NoWrites(old(log), log)
      ensures result.outcome == RolledBack ==> result.reason != NoReason && !NoWrites(old(log), log) && EndsReverted(log)
      ensures result.outcome == Fatal ==> result.reason == RollbackFailed && result.qualified && log != old(log)
      ensures reliable ==> result.outcome != Fatal
      ensures reliable ==>
                (result.outcome == (if mode == ActiveMode then Active else Passive) <==>
                   old(Qualified()) && startupOk && sectionsOk && identityOk)
    {
      var reason, original := Qualify();
      if reason != NoReason { return Result(Disabled, reason, false); }
      if mode == PassiveMode { return Result(Passive, NoReason, true); }
      var done, failure, attempted := Correct(original);
      if done { return Result(Active, NoReason, true); }
      ghost var first := |old(log)| + 1;
      assert attempted ==> log[first] == Wrote(profile.newDisplacement);
      result := Undo(original, failure, attempted);
      assert attempted ==> log[first].Wrote?;
    }

    /** How a failed correction ends. */
    method Undo(original: seq<Byte>, failure: Reason, attempted: bool) returns (result: Result)
      requires Fits() && |original| == |code| && failure != NoReason
      requires !attempted ==> code == original
      modifies this`code, this`page, this`log
      ensures old(log) <= log && result.qualified
      ensures result.outcome == Disabled || result.outcome == RolledBack || result.outcome == Fatal
      ensures result.outcome != Fatal ==> result.reason == failure && code == original && page == ExecuteRead && rest == ExecuteRead
      ensures result.outcome == Disabled ==> !attempted && NoWrites(old(log), log)
      ensures result.outcome == RolledBack ==> attempted && EndsReverted(log)
      ensures result.outcome == Fatal ==> result.reason == RollbackFailed
      ensures reliable && rest == ExecuteRead
              && (if attempted then Patched(old(code), Offset(profile), profile.oldDisplacement) == original
                  else old(page) == ExecuteRead || Writable(old(page)))
              ==> result.outcome != Fatal
    {
      if attempted {
        var restored := Rollback(original);
        return if restored then Result(RolledBack, failure, true) else Result(Fatal, RollbackFailed, true);
      }
      if failure == ProtectFailed {
        var untouched := OriginalState(original);
        if untouched { return Result(Disabled, failure, true); }
      }
      var recovered := RecoverWithoutWrite(original);
      return if recovered then Result(Disabled, failure, true) else Result(Fatal, RollbackFailed, true);
    }

    /** The old word was written, the page closed, and the cache flushed, in that order and last. */
    ghost predicate EndsReverted(now: seq<Event>) {
      && |now| >= 4
      && now[|now| - 4..] == [Protected(ExecuteReadWrite), Wrote(profile.oldDisplacement), Protected(ExecuteRead), Flushed]
    }
  }

  predicate NoWrites(was: seq<Event>, now: seq<Event>) {
    was <= now && forall k :: |was| <= k < |now| ==> !now[k].Wrote? && !now[k].Flushed?
  }
}
