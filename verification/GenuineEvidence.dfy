/** One private resolution of the genuine module, check by check, beside the pure validator that
    states the same policy over all the evidence at once.
 */
module GenuineEvidence {

  datatype Status =
    | Ok | SystemPathFailed | PathCapacityFailed | LoadFailed | SelfModule | CandidatePathFailed
    | FileIdentityFailed | WrongFile | InitializeExportMissing | CalculateExportMissing
    | InitializeAddressQueryFailed | CalculateAddressQueryFailed
    | InitializeWrongAllocationBase | CalculateWrongAllocationBase

  datatype FailureClass = NoFailure | ResourceApi | Validation

  function Classify(status: Status): FailureClass {
    match status
    case Ok => NoFailure
    case SystemPathFailed => ResourceApi
    case PathCapacityFailed => ResourceApi
    case LoadFailed => ResourceApi
    case CandidatePathFailed => ResourceApi
    case FileIdentityFailed => ResourceApi
    case _ => Validation
  }

  datatype Identity = Identity(valid: bool, volume: nat, file: nat)

  predicate SameFile(a: Identity, b: Identity) {
    a.valid && b.valid && a.volume == b.volume && a.file == b.file
  }

  /** Everything the system would answer during one resolution. Addresses and handles are numbers; 0 is null. */
  datatype Answers = Answers(
    pathOk: bool, pathTooLong: bool,
    candidate: nat, candidatePathOk: bool,
    expectedQueried: bool, expected: Identity,
    actualQueried: bool, actual: Identity,
    initialize: nat, calculate: nat,
    initializeQueried: bool, initializeBase: nat,
    calculateQueried: bool, calculateBase: nat)

  /** The pure policy over complete evidence. */
  function Validate(bootstrap: nat, candidate: nat, expected: Identity, actual: Identity,
                    initialize: nat, calculate: nat, initializeQueried: bool, calculateQueried: bool,
                    initializeBase: nat, calculateBase: nat): Status
  {
    if candidate == 0 then LoadFailed
    else if candidate == bootstrap then SelfModule
    else if !expected.valid || !actual.valid then FileIdentityFailed
    else if !SameFile(expected, actual) then WrongFile
    else if initialize == 0 then InitializeExportMissing
    else if calculate == 0 then CalculateExportMissing
    else if !initializeQueried then InitializeAddressQueryFailed
    else if !calculateQueried then CalculateAddressQueryFailed
    else if initializeBase != candidate then InitializeWrongAllocationBase
    else if calculateBase != candidate then CalculateWrongAllocationBase
    else Ok
  }

  /** The same policy over the answers of one resolution whose paths could be built; a failed
      identity query is evidence that is not valid. */
  function Policy(bootstrap: nat, a: Answers): Status {
    Validate(bootstrap, a.candidate,
             a.expected.(valid := a.expectedQueried && a.expected.valid),
             a.actual.(valid := a.actualQueried && a.actual.valid),
             a.initialize, a.calculate, a.initializeQueried, a.calculateQueried,
             a.initializeBase, a.calculateBase)
  }

  predicate PathsOk(bootstrap: nat, a: Answers) { bootstrap != 0 && a.pathOk && a.candidatePathOk }

  /** The two export addresses lie in the one module that is the expected file and not the bootstrap. */
  predicate Genuine(bootstrap: nat, a: Answers) {
    && a.candidate != 0 && a.candidate != bootstrap
    && a.expectedQueried && a.actualQueried && SameFile(a.expected, a.actual)
    && a.initialize != 0 && a.initializeQueried && a.initializeBase == a.candidate
    && a.calculate != 0 && a.calculateQueried && a.calculateBase == a.candidate
  }

  lemma PolicyMeansGenuine(bootstrap: nat, a: Answers)
    ensures Policy(bootstrap, a) == Ok <==> Genuine(bootstrap, a)
  {
  }

  /** The one family of answers on which order matters: both exports of the right file, the first
      in a foreign module, the second query failing. The resolver looks at the first base before
      it makes the second query. */
  predicate OrderShows(bootstrap: nat, a: Answers) {
    && a.candidate != 0 && a.candidate != bootstrap
    && a.expectedQueried && a.actualQueried && SameFile(a.expected, a.actual)
    && a.initialize != 0 && a.calculate != 0
    && a.initializeQueried && a.initializeBase != a.candidate
    && !a.calculateQueried
  }

  /** Such answers exist: a foreign first export and a failing second query. */
  lemma OrderCanShow() returns (a: Answers)
    ensures PathsOk(1, a) && OrderShows(1, a)
  {
    var file := Identity(true, 1, 1);
    a := Answers(true, false, 2, true, true, file, true, file, 3, 4, true, 9, false, 0);
  }

  // ---- The loader ----

  class Loader {
    const bootstrap: nat
    var loads: multiset<nat>
    var frees: multiset<nat>

    constructor (bootstrap: nat)
      ensures this.bootstrap == bootstrap && loads == frees == multiset{}
    {
      this.bootstrap := bootstrap;
      loads, frees := multiset{}, multiset{};
    }

    method Load(a: Answers) returns (candidate: nat)
      modifies this`loads
      ensures candidate == a.candidate
      ensures loads == old(loads) + if candidate != 0 then multiset{candidate} else multiset{}
    {
      candidate := a.candidate;
      if candidate != 0 { loads := loads + multiset{candidate}; }
    }

    method Free(candidate: nat)
      modifies this`frees
      ensures frees == old(frees) + multiset{candidate}
    {
      frees := frees + multiset{candidate};
    }

    /** One resolution. Its one load is handed to the caller exactly when it is genuine, is kept
        for ever when it is the bootstrap itself, and is given back otherwise. */
    method ResolvePrivate(a: Answers) returns (status: Status, owned: nat)
      modifies this`loads, this`frees
      ensures status == Ok <==> PathsOk(bootstrap, a) && Genuine(bootstrap, a)
      ensures owned == if status == Ok then a.candidate else 0
      ensures PathsOk(bootstrap, a) ==> Classify(status) == Classify(Policy(bootstrap, a))
      ensures PathsOk(bootstrap, a) ==> (status != Policy(bootstrap, a) <==> OrderShows(bootstrap, a))
      ensures PathsOk(bootstrap, a) && OrderShows(bootstrap, a) ==> status == InitializeWrongAllocationBase
      ensures bootstrap == 0 || !a.pathOk ==>
                status == (if bootstrap != 0 && a.pathTooLong then PathCapacityFailed else SystemPathFailed)
                && loads == old(loads)
      ensures bootstrap != 0 && a.pathOk && !a.candidatePathOk && a.candidate != 0 && a.candidate != bootstrap ==>
                status == CandidatePathFailed
      ensures bootstrap != 0 && a.pathOk && a.candidate != 0 ==> loads == old(loads) + multiset{a.candidate}
      ensures frees == old(frees) || (frees == old(frees) + multiset{a.candidate} && a.candidate != bootstrap)
      ensures frees == old(frees) <==> loads == old(loads) || status == Ok || status == SelfModule
      ensures status == SelfModule <==> bootstrap != 0 && a.pathOk && a.candidate == bootstrap
    {
      if bootstrap == 0 { return SystemPathFailed, 0; }
      if !a.pathOk { return if a.pathTooLong then PathCapacityFailed else SystemPathFailed, 0; }
      var candidate := Load(a);
      if candidate == 0 { return LoadFailed, 0; }
      if candidate == bootstrap { return SelfModule, 0; }
      status := Examine(a, candidate);
      if status == Ok {
        owned := candidate;
      } else {
        Free(candidate);
        owned := 0;
      }
    }

    /** The checks between the load and the verdict, in the order the queries are made. */
    method Examine(a: Answers, candidate: nat) returns (status: Status)
      requires candidate == a.candidate && candidate != 0 && candidate != bootstrap
      ensures status == Ok <==> a.candidatePathOk && Genuine(bootstrap, a)
      ensures !a.candidatePathOk ==> status == CandidatePathFailed
      ensures a.candidatePathOk ==>
                status == if OrderShows(bootstrap, a) then InitializeWrongAllocationBase else Policy(bootstrap, a)
    {
      if !a.candidatePathOk { return CandidatePathFailed; }
      if !a.expectedQueried || !a.actualQueried { return FileIdentityFailed; }
      if !a.expected.valid || !a.actual.valid { return FileIdentityFailed; }
      if !SameFile(a.expected, a.actual) { return WrongFile; }
      if a.initialize == 0 { return InitializeExportMissing; }
      if a.calculate == 0 { return CalculateExportMissing; }
      if !a.initializeQueried { return InitializeAddressQueryFailed; }
      if a.initializeBase != candidate { return InitializeWrongAllocationBase; }
      if !a.calculateQueried { return CalculateAddressQueryFailed; }
      if a.calculateBase != candidate { return CalculateWrongAllocationBase; }
      return Ok;
    }
  }
}
