/** What a process does in the course of native recovery, as one trace, and when each native call
    is allowed in it. The trace is the yardstick for the state machine of `LeechRecovery`.
 */
module LeechTrace {

  /** The native calls of a recipe, in the order of the recipe. The two releases are alternatives. */
  datatype Op =
    | FinishType | InitHolder | FinishAllocate | BindHolder | ResolveHolder | CopyString | Cancel | Enqueue
    | FinishRelease | ReleaseHolder
    | Cleanup | Start | Create | CreateForward

  datatype Event =
    | Visit                                      // a normal owner visit begins
    | Sampled(qpc: nat)                          // a lease passed at this clock sample
    | Called(op: Op)
    | Returned(op: Op)                           // without an exception
    | Allocated(slot: nat)                       // what the allocation answered
    | InverseAnswered(proven: bool)              // what the gate in front of the release answered
    | Enqueued(id: nat)                          // what the enqueue call answered
    | FinishSeen(id: nat, accepted: bool, qpc: nat)
    | Accepted(id: nat)                          // the owner acknowledged the Finish callback

  function Rank(op: Op): nat {
    match op
    case FinishType => 0
    case InitHolder => 1
    case FinishAllocate => 2
    case BindHolder => 3
    case ResolveHolder => 4
    case CopyString => 5
    case Cancel => 6
    case Enqueue => 7
    case FinishRelease => 8
    case ReleaseHolder => 8
    case Cleanup => 9
    case Start => 10
    case Create => 11
    case CreateForward => 12
  }

  const FINISH_SLOTS: nat := 16

  const RELEASE_RANK := 8
  const CLEANUP_RANK := 9
  const FORWARD_RANK := 12

  /** Every call so far ranks below n. */
  predicate Below(trace: seq<Event>, n: nat) {
    forall k :: 0 <= k < |trace| && trace[k].Called? ==> Rank(trace[k].op) < n
  }

  lemma BelowGrows(trace: seq<Event>, m: nat, n: nat)
    requires Below(trace, m) && m <= n
    ensures Below(trace, n)
  {
  }

  /** Nothing was added but things that happened without a native call of ours. */
  predicate Quiet(was: seq<Event>, now: seq<Event>) {
    was <= now && forall k :: |was| <= k < |now| ==> !now[k].Called?
  }

  lemma NothingIsQuiet(trace: seq<Event>)
    ensures Quiet(trace, trace)
  {
  }

  lemma QuietStaysBelow(was: seq<Event>, now: seq<Event>, n: nat)
    requires Quiet(was, now) && Below(was, n)
    ensures Below(now, n)
  {
    forall k | 0 <= k < |now| && now[k].Called?
      ensures Rank(now[k].op) < n
    {
      assert now[k] == was[k];
    }
  }

  lemma StaysIn(was: seq<Event>, now: seq<Event>, e: Event)
    requires e in was && was <= now
    ensures e in now
  {
    var k :| 0 <= k < |was| && was[k] == e;
    assert now[k] == e;
  }

  lemma QuietIsPrefix(was: seq<Event>, now: seq<Event>)
    requires Quiet(was, now)
    ensures was <= now
  {
  }

  lemma QuietKeeps(was: seq<Event>, now: seq<Event>, e: Event)
    requires e in was && Quiet(was, now)
    ensures e in now
  {
    StaysIn(was, now, e);
  }

  lemma CallIsIn(was: seq<Event>, now: seq<Event>, op: Op)
    requires was + [Called(op)] <= now
    ensures Called(op) in now && was <= now
  {
    assert now[|was|] == (was + [Called(op)])[|was|];
  }

  /** The call that must have returned before this one of the recipe's main line. */
  function Previous(op: Op): Op
    requires op != FinishType && op != FinishRelease && op != ReleaseHolder
  {
    match op
    case InitHolder => FinishType
    case FinishAllocate => InitHolder
    case BindHolder => FinishAllocate
    case ResolveHolder => BindHolder
    case CopyString => ResolveHolder
    case Cancel => CopyString
    case Enqueue => Cancel
    case Cleanup => Enqueue
    case Start => Cleanup
    case Create => Start
    case CreateForward => Create
  }

  datatype Limits = Limits(finish: nat, overall: nat)

  /** The last thing that happened is a lease sampled before the deadline. */
  predicate Leased(trace: seq<Event>, deadline: nat) {
    |trace| > 0 && trace[|trace| - 1].Sampled? && trace[|trace| - 1].qpc < deadline
  }

  datatype Witness = Witness(seen: nat, enqueued: nat, accepted: nat, visit: nat)

  /** A true Finish callback with a nonzero id, seen before the finish deadline; an enqueue that
      answered that id (or none); and the owner's acknowledgement of the two. */
  predicate AcceptedAt(trace: seq<Event>, limits: Limits, w: Witness) {
    && w.accepted < |trace| && trace[w.accepted].Accepted? && trace[w.accepted].id != 0
    && w.seen < w.accepted && trace[w.seen].FinishSeen? && trace[w.seen].accepted
    && trace[w.seen].id == trace[w.accepted].id
    && trace[w.seen].qpc < limits.finish && trace[w.seen].qpc < limits.overall
    && w.enqueued < w.accepted && trace[w.enqueued].Enqueued?
    && (trace[w.enqueued].id == trace[w.accepted].id || trace[w.enqueued].id == 0)
  }

  /** ... on an earlier visit than the present one. */
  predicate AcknowledgedAt(trace: seq<Event>, limits: Limits, w: Witness) {
    AcceptedAt(trace, limits, w) && w.accepted < w.visit < |trace| && trace[w.visit].Visit?
  }

  ghost predicate Acknowledged(trace: seq<Event>, limits: Limits) {
    exists w :: AcknowledgedAt(trace, limits, w)
  }

  /** When a native call may follow this trace. */
  ghost predicate MayCall(trace: seq<Event>, op: Op, limits: Limits) {
    && Below(trace, Rank(op))
    && match op
       case FinishRelease => Returned(FinishAllocate) in trace && Called(BindHolder) !in trace
       case ReleaseHolder => Returned(BindHolder) in trace
       case FinishType => Leased(trace, limits.finish) && Leased(trace, limits.overall)
       case FinishAllocate => Returned(InitHolder) in trace
       case CreateForward => Returned(Create) in trace && Leased(trace, limits.overall)
       case _ =>
         && Returned(Previous(op)) in trace
         && Leased(trace, limits.finish) && Leased(trace, limits.overall)
         && (Rank(op) >= CLEANUP_RANK ==> Acknowledged(trace, limits))
  }

  /** The main line of the submission goes on after a lease. */
  lemma MayGoOn(trace: seq<Event>, op: Op, limits: Limits)
    requires Below(trace, Rank(op)) && Rank(op) < RELEASE_RANK
    requires op != FinishType ==> Returned(Previous(op)) in trace
    requires op != FinishAllocate ==> Leased(trace, limits.finish) && Leased(trace, limits.overall)
    ensures MayCall(trace, op, limits)
  {
  }

  ghost predicate TraceOk(trace: seq<Event>, limits: Limits) {
    forall k :: 0 <= k < |trace| && trace[k].Called? ==> MayCall(trace[..k], trace[k].op, limits)
  }

  lemma TraceExtends(trace: seq<Event>, e: Event, limits: Limits)
    requires TraceOk(trace, limits) && (e.Called? ==> MayCall(trace, e.op, limits))
    ensures TraceOk(trace + [e], limits)
  {
    hide MayCall;
    var longer := trace + [e];
    forall k | 0 <= k < |longer| && longer[k].Called?
      ensures MayCall(longer[..k], longer[k].op, limits)
    {
      assert longer[..k] == trace[..k];
      if k == |trace| { assert trace[..k] == trace; }
    }
  }

  /** What one more event leaves below a rank. */
  lemma BelowNext(trace: seq<Event>, e: Event, limits: Limits)
    requires e.Called? ==> MayCall(trace, e.op, limits)
    ensures if e.Called? then Below(trace + [e], Rank(e.op) + 1) else Quiet(trace, trace + [e])
  {
  }

  lemma AcknowledgedStays(trace: seq<Event>, longer: seq<Event>, limits: Limits)
    requires Acknowledged(trace, limits) && trace <= longer
    ensures Acknowledged(longer, limits)
  {
    var w :| AcknowledgedAt(trace, limits, w);
    assert AcknowledgedAt(longer, limits, w);
  }

  lemma NoCallsIsOk(trace: seq<Event>, limits: Limits)
    requires Below(trace, 0)
    ensures TraceOk(trace, limits)
  {
  }

  // ---- The account of the local Finish slot ----

  /** What concerns the slot: that there is one, whether its inverse is proven, and the inverse. */
  predicate OfSlot(e: Event) {
    || (e.Allocated? && e.slot < FINISH_SLOTS)
    || e.InverseAnswered?
    || (e.Called? && Rank(e.op) == RELEASE_RANK)
    || (e.Returned? && Rank(e.op) == RELEASE_RANK)
  }

  function Account(trace: seq<Event>): seq<Event> {
    if trace == [] then []
    else
      var last := trace[|trace| - 1];
      Account(trace[..|trace| - 1]) + if OfSlot(last) then [last] else []
  }

  lemma AccountNext(trace: seq<Event>, e: Event)
    ensures Account(trace + [e]) == Account(trace) + if OfSlot(e) then [e] else []
    ensures e == Called(BindHolder) ==> !OfSlot(e)
  {
    assert (trace + [e])[..|trace|] == trace;
  }

  /** A slot was taken. */
  predicate Taken(account: seq<Event>) {
    |account| > 0 && account[0].Allocated?
  }

  /** The gate proved the inverse, which was called once and returned. */
  predicate GivenBack(account: seq<Event>) {
    && |account| == 4 && Taken(account) && account[1] == InverseAnswered(true)
    && account[2].Called? && account[3] == Returned(account[2].op)
  }

  /** The gate did not prove the inverse, which was not called; or it was called and threw. */
  predicate Retained(account: seq<Event>) {
    && Taken(account)
    && ((|account| == 2 && account[1] == InverseAnswered(false))
        || (|account| == 3 && account[1] == InverseAnswered(true) && account[2].Called?))
  }

  /** No slot and nothing done about one, or a slot with its one way out. */
  predicate Closed(account: seq<Event>) {
    account == [] || GivenBack(account) || Retained(account)
  }

  // ---- What an admissible trace means ----

  /** The native calls of the whole process happen in recipe order, each at most once, and only
      one of the two releases. */
  lemma CallsAscend(trace: seq<Event>, limits: Limits, i: nat, j: nat)
    requires TraceOk(trace, limits) && i < j < |trace| && trace[i].Called? && trace[j].Called?
    ensures Rank(trace[i].op) < Rank(trace[j].op)
  {
    assert MayCall(trace[..j], trace[j].op, limits);
    assert trace[..j][i] == trace[i];
  }

  /** The session is torn down and rebuilt only after an acknowledged, timely, true Finish
      callback of an earlier visit, and each step right after a timely clock sample. */
  lemma RebuildIsEarned(trace: seq<Event>, limits: Limits, k: nat) returns (w: Witness)
    requires TraceOk(trace, limits) && k < |trace|
    requires trace[k] == Called(Cleanup) || trace[k] == Called(Start) || trace[k] == Called(Create)
    ensures k > 0 && trace[k - 1].Sampled? && trace[k - 1].qpc < limits.finish && trace[k - 1].qpc < limits.overall
    ensures AcknowledgedAt(trace, limits, w) && w.visit < k
  {
    assert MayCall(trace[..k], trace[k].op, limits);
    w :| AcknowledgedAt(trace[..k], limits, w);
    assert trace[..k][k - 1] == trace[k - 1];
  }

  /** A local Finish resource is released by the inverse of what was done to it, never after a
      bind that did not complete. */
  lemma ReleaseMatches(trace: seq<Event>, limits: Limits, k: nat)
    requires TraceOk(trace, limits) && k < |trace|
    ensures trace[k] == Called(FinishRelease) ==>
              (exists j :: 0 <= j < k && trace[j] == Returned(FinishAllocate))
              && forall j :: 0 <= j < k ==> trace[j] != Called(BindHolder)
    ensures trace[k] == Called(ReleaseHolder) ==> exists j :: 0 <= j < k && trace[j] == Returned(BindHolder)
  {
    if trace[k] == Called(FinishRelease) {
      assert MayCall(trace[..k], FinishRelease, limits);
      var j :| 0 <= j < |trace[..k]| && trace[..k][j] == Returned(FinishAllocate);
      assert trace[j] == Returned(FinishAllocate);
      forall i | 0 <= i < k ensures trace[i] != Called(BindHolder) { assert trace[..k][i] == trace[i]; }
    } else if trace[k] == Called(ReleaseHolder) {
      assert MayCall(trace[..k], ReleaseHolder, limits);
      var j :| 0 <= j < |trace[..k]| && trace[..k][j] == Returned(BindHolder);
      assert trace[j] == Returned(BindHolder);
    }
  }

  /** Where the entries of the account stand in the trace, in order; nothing else there is of
      the slot. */
  lemma {:induction false} AccountPlaces(trace: seq<Event>) returns (p: seq<nat>)
    ensures |p| == |Account(trace)|
    ensures forall m :: 0 <= m < |p| ==> p[m] < |trace| && trace[p[m]] == Account(trace)[m] && OfSlot(trace[p[m]])
    ensures forall m, n :: 0 <= m < n < |p| ==> p[m] < p[n]
    ensures forall k :: 0 <= k < |trace| && OfSlot(trace[k]) ==> k in p
  {
    if trace == [] {
      p := [];
    } else {
      var n := |trace| - 1;
      var q := AccountPlaces(trace[..n]);
      p := q + if OfSlot(trace[n]) then [n] else [];
      forall k | 0 <= k < |trace| && OfSlot(trace[k])
        ensures k in p
      {
        if k < n {
          assert trace[..n][k] == trace[k];
          var m :| 0 <= m < |q| && q[m] == k;
          assert p[m] == k;
        } else {
          assert p[|q|] == n;
        }
      }
    }
  }

  predicate Takes(e: Event) { e.Allocated? && e.slot < FINISH_SLOTS }

  predicate Releases(e: Event) { e.Called? && Rank(e.op) == RELEASE_RANK }

  /** A slot that was taken at moment a has exactly one way out: the gate is asked once, at g; if
      it proves the inverse, the one inverse that matches is called once, at r, and the slot is
      given back if that call returns; otherwise no inverse is ever called. Where none was taken,
      nothing is ever asked or released. */
  lemma SlotAccounted(trace: seq<Event>, limits: Limits) returns (a: nat, g: nat, r: nat)
    requires TraceOk(trace, limits) && Closed(Account(trace))
    ensures var account := Account(trace);
      && (account == [] <==> forall k :: 0 <= k < |trace| ==> !OfSlot(trace[k]))
      && (account != [] ==>
            && a < g < |trace| && Takes(trace[a]) && trace[g].InverseAnswered?
            && (forall k :: 0 <= k < |trace| ==> (Takes(trace[k]) <==> k == a) && (trace[k].InverseAnswered? <==> k == g))
            && (if trace[g].proven then
                  && g < r < |trace| && (forall k :: 0 <= k < |trace| ==> (Releases(trace[k]) <==> k == r))
                  && (trace[r].op == FinishRelease ==> Called(BindHolder) !in trace[..r])
                  && (trace[r].op == ReleaseHolder ==> Returned(BindHolder) in trace[..r])
                  && (GivenBack(account) <==> Returned(trace[r].op) in trace)
                else
                  !GivenBack(account) && forall k :: 0 <= k < |trace| ==> !Releases(trace[k])))
  {
    var account := Account(trace);
    var p := AccountPlaces(trace);
    a, g, r := 0, 0, 0;
    if account != [] {
      a, g := p[0], p[1];
      if trace[g].proven {
        r := p[2];
        assert MayCall(trace[..r], trace[r].op, limits);
        ReturnedOnce(trace, account, p, r);
      }
    }
  }

  lemma ReturnedOnce(trace: seq<Event>, account: seq<Event>, p: seq<nat>, r: nat)
    requires |p| == |account| && (forall m :: 0 <= m < |p| ==> p[m] < |trace| && trace[p[m]] == account[m])
    requires forall k :: 0 <= k < |trace| && OfSlot(trace[k]) ==> k in p
    requires Closed(account) && |p| > 2 && r == p[2] && Releases(trace[r])
    ensures GivenBack(account) <==> Returned(trace[r].op) in trace
  {
    if GivenBack(account) {
      assert trace[p[3]] == Returned(trace[r].op);
    } else if Returned(trace[r].op) in trace {
      var k :| 0 <= k < |trace| && trace[k] == Returned(trace[r].op);
      assert OfSlot(trace[k]);
      var m :| 0 <= m < |p| && p[m] == k;
    }
  }
}
