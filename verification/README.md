# Verified model of the process fixes

A Dafny model of the parts of this repository that change a running process,
with proofs of what they promise. Windows and native calls are operations that
may fail, lie about having failed, throw, or call back; other threads act
between any two accesses of shared state. Everything below is proved for every
input, every run and every such environment.

| file | models |
|---|---|
| `ObserverProtocol.dfy`, `ObserverRuns.dfy` | the observer gate, the packed lifecycle word and the sticky binding cache as a step system with any number of wrapper calls and one installer |
| `ObserverDispatch.dfy` | the same operations as code on shared fields, with interference between accesses |
| `InstallTransaction.dfy` | the import-cell transaction: swap, verify, commit, roll back |
| `GenuineEvidence.dfy`, `GenuinePublication.dfy`, `GenuineRuns.dfy` | private resolution of the genuine module, and the race that publishes it |
| `LeechTrace.dfy`, `LeechFault.dfy`, `LeechRecovery.dfy` | the recovery attempt: control latch, owner visits, callbacks, deadlines, native calls that throw |
| `ReconFix.dfy` | the operand patch: corrected, original or fatal |
| `LogQueue.dfy`, `LogFile.dfy`, `LogWriter.dfy`, `LogProtocol.dfy` | the bounded event queue, its writer and the byte-capped file |
| `CallbackTiming.dfy` | the primary-callback timing automaton |
| `CaptureScope.dfy` | exception-directory search and unwind chains |
| `PeImage.dfy` | section tables and the two address mappings |
| `EvidenceText.dfy`, `EvidenceNames.dfy`, `EvidenceFile.dfy` | the strict evidence printer and parser |
| `NativeSnapshot.dfy` | the read-only observation of the host's recovery structures |
| `Options.dfy` | a value that may be missing |

Where a class has a `quiet`, `reliable` or `calm` constant, it names a world in
which nothing else acts and every operation does what it should. Contracts use it
to say what the code achieves then; everything not guarded by it holds always.
In the classes with interference, a `log` or `trace` field records the mutating
operations, so that "never" and "exactly once" are statements about it.

## Where code and expectation part

Five expected properties fail. Each has a concrete case and the exact condition:

- Callback timing: an unwind drops the own stretch it finds open, so the ticks are
  the own and filter time exactly if no unwind did so
  (`CallbackTiming.ExactUnlessDropped`, `CallbackTiming.DroppedExample`). The guard
  begins an unwind only after its search filter has ended, and in that order the
  dropped time is exactly the gap between the two, the dispatch of the exception,
  which the code leaves out on purpose (`CallbackTiming.DroppedIsDispatch`).
- Log: an event whose write reports a failure for the whole line, or claims more
  than was asked for when all of it arrived, is in the file and is not counted
  (`LogFile.MissedAnswers`, `LogWriter.UncountedEvent`); the file's events are the
  counted ones exactly if that happened to no event (`LogWriter.Writer.EventsAreExact`).
- PE mapping: on an empty range the two lookups differ exactly at the end of a
  section's raw data inside its span (`PeImage.EmptyLookupsAgree`, `PeImage.EmptyLookupsCanDiffer`).
- Decimal reader: it keeps to its maximum exactly if that is at least nine
  (`EvidenceText.DecimalRespectsMaximum`); every caller passes more.
- Genuine resolver: its status differs from that of the evidence policy exactly
  when, in the right file with both exports, the first export lies in a foreign
  module and the query for the second fails; the failure class is the same
  (`GenuineEvidence.Loader.ResolvePrivate`, `GenuineEvidence.OrderCanShow`).

Two checks turn out to be redundant: on consistent observations the last three
checks of the heartbeat slot refuse nothing (`NativeSnapshot.NextSlotForced`), and
the whole-file check of the evidence reader refuses no written record
(`EvidenceFile.TextIsClean`).

## Model

| member | source | states |
|---|---|---|
| `ObserverProtocol.StepKeeps` | `src/companion/steam_observer_dispatch.cpp:34-138` | one step of any wrapper call, or of the installer, keeps the whole invariant (word halves equal the owned and running Init/Shutdown entries, gate and admissions consistent, cache and lock consistent), and only moves gate, word, flag and cache forward |
| `ObserverProtocol.InstallerKeeps` | `src/companion/steam_observer.cpp:255-293` | the commit and the disable swaps of the installer keep that invariant |
| `ObserverProtocol.WordHalves` | `src/companion/steam_observer_dispatch.cpp:94-122` | high half = number of owned entries so far, low half = number still running, low never above high |
| `ObserverProtocol.CallStable` | `src/companion/steam_observer_dispatch.cpp:34-47` | what a call has learned stays true whatever other threads do after it |
| `ObserverProtocol.CountUpdate` | `src/companion/steam_observer_dispatch.cpp:94-122` | the ledger of calls: replacing one call changes a count by exactly that call |
| `ObserverProtocol.ActiveAtMostOwned` | `src/companion/steam_observer_dispatch.cpp:94-122` | an entry in flight is an owned entry |
| `ObserverProtocol.FlyingWhileActive` | `src/companion/steam_observer_dispatch.cpp:109-122` | while an owned entry runs the low half is not zero, so leaving cannot underflow |
| `ObserverProtocol.Find` | `src/companion/steam_observer_dispatch.cpp:174-181` | finds a binding exactly if the key is in the cache, and then one with that key |
| `ObserverProtocol.EvolvesTransitive` | `src/companion/steam_observer_dispatch.cpp:34-138` | forward movement of gate, word, flag and cache composes |
| `ObserverProtocol.BindPcOk` | `src/companion/steam_observer_dispatch.cpp:508-527` | what a factory call may conclude after the locked bind |
| `ObserverRuns.InvAlways` | `src/companion/steam_observer_dispatch.cpp:34-138` | the invariant holds at every moment of every run, with any number of calls |
| `ObserverRuns.EvolvesBetween` | `src/companion/steam_observer_dispatch.cpp:34-138` | between any two moments of a run everything only moved forward |
| `ObserverRuns.ArmedNeverRefuses` | `src/companion/steam_observer_dispatch.cpp:34-47` | if the gate is ever Armed in a run, no qualifying call was or will be refused in it |
| `ObserverRuns.ArmedExcludesContaminated` | `src/companion/steam_observer.cpp:255-293` | Armed and Contaminated (or Disabled) never both occur in one run |
| `ObserverRuns.AdmittedOnlyArmed` | `src/companion/steam_observer_dispatch.cpp:34-47` | an admitted call means an armed gate |
| `ObserverRuns.WordCounts` | `src/companion/steam_observer_dispatch.cpp:94-122` | at every moment the halves of the word count owned and running entries, and no leaving call ever took the underflow branch |
| `ObserverRuns.CleanWindow` | `src/companion/steam_observer_dispatch.cpp:170-173` | two equal clean samples of the word enclose no running Init or Shutdown at all |
| `ObserverRuns.SampleMoment` | `src/companion/steam_observer_dispatch.cpp:489-492` | every factory call past its sample has one moment at which the sample was the word |
| `ObserverRuns.ProxyMeansNoCrossing` | `src/companion/steam_observer_dispatch.cpp:489-527` | a call that returns a proxy had no admitted Init or Shutdown running from its sample to its check under the lock, nor at any other moment it was in the native factory |
| `ObserverRuns.CheckStep` | `src/companion/steam_observer_dispatch.cpp:508-509` | passing the check under the lock means the word still equals the sample and the flag was clear when it was read |
| `ObserverRuns.LastCheck` | `src/companion/steam_observer_dispatch.cpp:489-509` | every returned proxy has a moment under the lock at which the word was still clean |
| `ObserverRuns.CacheAlwaysOk` | `src/companion/steam_observer_dispatch.cpp:501-535` | at most sixteen entries, one per key, ids 1..n in creation order, in every state of every run |
| `ObserverRuns.DecisionsAreSticky` | `src/companion/steam_observer_dispatch.cpp:511-520` | a cache entry, decision included, never changes again |
| `ObserverRuns.SameKeySameProxy` | `src/companion/steam_observer_dispatch.cpp:501-535` | two factory calls with the same key that both get a proxy get the same one |
| `ObserverRuns.LockIsExclusive` | `src/companion/steam_observer_dispatch.cpp:501-531` | never two calls inside the cache lock |
| `ObserverRuns.LookupSampleMoment` | `src/companion/steam_observer_dispatch.cpp:432-438` | every lookup that scans has one moment at which its sample was the word, with nothing in flight |
| `ObserverRuns.LookupIsCoherent` | `src/companion/steam_observer_dispatch.cpp:432-457` | a successful lookup found the only accepted match of the current sequence, with no Init or Shutdown running from its sample, over the scan, to its last comparison |
| `ObserverRuns.ScanMoment` | `src/companion/steam_observer_dispatch.cpp:439-450` | the scan of a successful lookup saw exactly one accepted match |
| `ObserverRuns.RecheckMoment` | `src/companion/steam_observer_dispatch.cpp:451-455` | a successful lookup has a later moment at which the word was still the same |
| `ObserverDispatch.DispatchState.constructor` | `src/companion/steam_observer_dispatch.cpp:94-138` | starts from the initial shared state |
| `ObserverDispatch.DispatchState.Admit` | `src/companion/steam_observer_dispatch.cpp:34-47` | admits exactly if the gate is found Armed; a refused qualifying call leaves the gate Contaminated or Disabled; left alone it changes only Preparing to Contaminated; the retry loop ends because the gate only rises |
| `ObserverDispatch.DispatchState.LifecycleEnter` | `src/companion/steam_observer_dispatch.cpp:94-108` | adds one entry to both halves, or finds a half full and raises the sticky flag |
| `ObserverDispatch.DispatchState.LifecycleLeave` | `src/companion/steam_observer_dispatch.cpp:109-122` | takes exactly one running entry off, whatever others do meanwhile, and never underflows |
| `ObserverDispatch.DispatchState.CleanLifecycle` | `src/companion/steam_observer_dispatch.cpp:170-173` | answers exactly whether the samples are equal, nothing ran and the flag is clear |
| `ObserverDispatch.DispatchState.FindBinding` | `src/companion/steam_observer_dispatch.cpp:174-181` | the first entry with the key, or the count |
| `ObserverDispatch.DispatchState.Insert` | `src/companion/steam_observer_dispatch.cpp:511-520` | appends the decision, or marks the pool exhausted |
| `ObserverDispatch.DispatchState.FindOrInsert` | `src/companion/steam_observer_dispatch.cpp:510-527` | a proxy exactly for an accepted entry of the key, created or found |
| `ObserverDispatch.DispatchState.Bind` | `src/companion/steam_observer_dispatch.cpp:505-531` | binds exactly if the word is still clean, else leaves the cache alone |
| `ObserverDispatch.DispatchState.BindResult` | `src/companion/steam_observer_dispatch.cpp:495-535` | a positive proxy is an accepted entry for this key; left alone the result is the specification's |
| `ObserverDispatch.DispatchState.FactoryEntry` | `src/companion/steam_observer_dispatch.cpp:475-540` | a proxy only for an armed, qualifying, clean call with a native object; otherwise the raw pointer and an unchanged cache |
| `ObserverDispatch.DispatchState.ScanAccepted` | `src/companion/steam_observer_dispatch.cpp:440-449` | the unique accepted match of the sequence, or none |
| `ObserverDispatch.DispatchState.ReadAcceptedBinding` | `src/companion/steam_observer_dispatch.cpp:432-457` | succeeds left alone exactly if armed, clean, lock free and the match unique |
| `ObserverDispatch.DispatchState.SwapWord` | `src/companion/steam_observer_dispatch.cpp:98-107` | a compare-and-swap on the word moves it exactly if the expected value was found |
| `ObserverDispatch.BoundExtends` | `src/companion/steam_observer_dispatch.cpp:511-520` | binding only ever extends the cache |
| `ObserverDispatch.BoundIgnores` | `src/companion/steam_observer_dispatch.cpp:501-504` | for a key already decided the fresh validation answer is ignored |
| `InstallTransaction.PlacedGeometry` | `src/companion/steam_observer.cpp:184-205` | accepted cells lie inside the image on one page, each whole, and never overlap |
| `InstallTransaction.CellsApart` | `src/companion/steam_observer.cpp:184-205` | two accepted cells are at least a pointer apart |
| `InstallTransaction.HostPage.constructor` | `src/companion/steam_observer.cpp:161-183` | the page before the transaction |
| `InstallTransaction.HostPage.Qualify` | `src/companion/steam_observer.cpp:184-208` | accepts exactly a well-placed request on committed data protection, without touching the page; the original protection it returns is the one its first query saw |
| `InstallTransaction.HostPage.ProtectedCells` | `src/companion/steam_observer.cpp:65-76` | true exactly when every cell was seen as expected at the expected protection |
| `InstallTransaction.HostPage.SwapIn` | `src/companion/steam_observer.cpp:226-235` | each cell goes from its original to our wrapper or stays; stops at the first foreign pointer |
| `InstallTransaction.HostPage.Attempt` | `src/companion/steam_observer.cpp:221-254` | ends proven (original protection restored, wrappers read back, identity stable) or reports failure |
| `InstallTransaction.HostPage.Prove` | `src/companion/steam_observer.cpp:240-252` | the proof that precedes the commit, without a write |
| `InstallTransaction.HostPage.Commit` | `src/companion/steam_observer.cpp:253-257` | the single commit point: arms exactly if the gate was still Preparing |
| `InstallTransaction.HostPage.SwapOut` | `src/companion/steam_observer.cpp:272-285` | takes back only our own wrappers; restored exactly if every cell was ours or original |
| `InstallTransaction.HostPage.Rollback` | `src/companion/steam_observer.cpp:270-293` | restored means all cells read back as originals at the original protection, then the gate disabled |
| `InstallTransaction.HostPage.Untouched` | `src/companion/steam_observer.cpp:260-291` | the same proof when no mutation had begun |
| `InstallTransaction.HostPage.Abandon` | `src/companion/steam_observer.cpp:258-296` | not fatal means proven original; anything else is reported fatal |
| `InstallTransaction.HostPage.Transact` | `src/companion/steam_observer.cpp:221-296` | mutation, proof, commit or abandonment: every logged swap is original to wrapper or back |
| `InstallTransaction.HostPage.InstallObserver` | `src/companion/steam_observer.cpp:161-297` | over any environment a foreign pointer is never overwritten; installed means armed after all wrappers were verified at the protection the first query saw; not installed and not fatal means untouched or the originals verified at that protection |
| `InstallTransaction.HostPage.Precheck` | `src/companion/steam_observer.cpp:209-220` | last look before mutation: originals in place, gate still Preparing |
| `GenuineEvidence.PolicyMeansGenuine` | `src/bootstrap/genuine_resolver.cpp:93-109` | the evidence policy is satisfied exactly by a candidate that is not the bootstrap and whose two exports lie in it |
| `GenuineEvidence.OrderCanShow` | `src/bootstrap/genuine_resolver.cpp:93-158` | the status of the resolver can differ from that of the policy: a concrete case |
| `GenuineEvidence.Loader.constructor` | `src/bootstrap/genuine_resolver.cpp:110-158` | nothing loaded and nothing freed |
| `GenuineEvidence.Loader.ResolvePrivate` | `src/bootstrap/genuine_resolver.cpp:110-158` | succeeds exactly for genuine evidence and then owns the candidate; failures classify as the policy does; the statuses differ exactly on the raw answers of one family: right file, both exports there, the first in a foreign module, the second query failing |
| `GenuineEvidence.Loader.Examine` | `src/bootstrap/genuine_resolver.cpp:125-158` | the order of the checks on a loaded candidate |
| `GenuinePublication.StepKeeps` | `src/bootstrap/genuine_resolver.cpp:160-283` | one step of any acquirer keeps every ledger and the call consistency |
| `GenuinePublication.InitialOk` | `src/bootstrap/genuine_resolver.cpp:247-277` | the invariant holds before the first acquirer |
| `GenuinePublication.ModuleMoves` | `src/bootstrap/genuine_resolver.cpp:185-283` | one step moves a loader reference between the two sides of the ledger and never loses one |
| `GenuinePublication.RecordMoves` | `src/bootstrap/genuine_resolver.cpp:185-246` | a record is at any time held by one call, published or dropped |
| `GenuinePublication.WriterMoves` | `src/bootstrap/genuine_resolver.cpp:222-246` | the fallback is being written exactly while one call writes it |
| `GenuinePublication.OthersUndisturbed` | `src/bootstrap/genuine_resolver.cpp:185-246` | a step of one acquirer never invalidates what another relies on |
| `GenuinePublication.TotalUpdate` | `src/bootstrap/genuine_resolver.cpp:185-283` | replacing one call changes a ledger total by exactly that call |
| `GenuinePublication.TotalTwo` | `src/bootstrap/genuine_resolver.cpp:222-246` | two calls together never hold more than the total |
| `GenuineRuns.InvAlways` | `src/bootstrap/genuine_resolver.cpp:160-283` | the invariant holds at every moment of every run of any number of acquirers |
| `GenuineRuns.EvolvesBetween` | `src/bootstrap/genuine_resolver.cpp:160-283` | published state is never taken back |
| `GenuineRuns.LoadsConserved` | `src/bootstrap/genuine_resolver.cpp:110-283` | successful loads = frees + self handles + references held by published records + by calls, for every module at every moment |
| `GenuineRuns.NothingLeaks` | `src/bootstrap/genuine_resolver.cpp:110-283` | once every call is finished, every reference is freed, published, or the self handle that is kept on purpose |
| `GenuineRuns.BootstrapNeverFreed` | `src/bootstrap/genuine_resolver.cpp:124-130` | the bootstrap module itself is never freed |
| `GenuineRuns.PersistentStaysLoaded` | `src/bootstrap/genuine_resolver.cpp:247-283` | the module behind a persistent lease has more loads than frees for the rest of the run |
| `GenuineRuns.PrivateIsLoaded` | `src/bootstrap/genuine_resolver.cpp:278-283` | so has the module behind a private lease until its release |
| `GenuineRuns.PublishedNeverFreed` | `src/bootstrap/genuine_resolver.cpp:185-221` | a published record is never dropped, and never replaced |
| `GenuineRuns.RecordHasOneHolder` | `src/bootstrap/genuine_resolver.cpp:185-221` | an unpublished record belongs to one call only |
| `GenuineRuns.FallbackReadOnlyWhenReady` | `src/bootstrap/genuine_resolver.cpp:176-184` | the fallback is read only when Ready, and then has its one final value |
| `GenuineRuns.FallbackHasOneWriter` | `src/bootstrap/genuine_resolver.cpp:222-246` | at no moment are there two calls about to write or release the fallback, and then nobody may read it |
| `GenuineRuns.AfterWrite` | `src/bootstrap/genuine_resolver.cpp:222-228` | after its write the fallback is being released by the call that wrote it, or is released |
| `GenuineRuns.WrittenOnce` | `src/bootstrap/genuine_resolver.cpp:222-246` | the fallback is written at most once in a run: two writes are the same call at the same moment |
| `GenuineRuns.RankFalls` | `src/bootstrap/genuine_resolver.cpp:160-283` | every step of an unfinished call brings it closer to its end |
| `GenuineRuns.FinishesAlone` | `src/bootstrap/genuine_resolver.cpp:160-283` | wait-free: a call ends within 39 steps of its own, whatever others do |
| `GenuineRuns.TryUsed` | `src/bootstrap/genuine_resolver.cpp:264-277` | every resolution uses up one of the tries left |
| `GenuineRuns.RetriesOnce` | `src/bootstrap/genuine_resolver.cpp:264-277` | at most two resolutions a call, the second only after a retryable failure |
| `LeechTrace.TraceExtends` | `src/companion/leech_recovery.cpp:171-197` | a trace stays admissible under an event whose own condition holds |
| `LeechTrace.CallsAscend` | `src/companion/leech_recovery.cpp:369-482` | native calls of a process come in one fixed order, each at most once |
| `LeechTrace.RebuildIsEarned` | `src/companion/leech_recovery.cpp:448-482` | every cleanup, start and create comes right after a clock sample below both deadlines, on a visit after an accepted Finish answer with the request's nonzero id that was seen before the deadline |
| `LeechTrace.ReleaseMatches` | `src/companion/leech_recovery.cpp:210-218` | a release matches its resource: the slot only if it was allocated and no bind was entered, the holder only if the bind returned |
| `LeechTrace.AccountPlaces` | `src/companion/leech_recovery.cpp:389-445` | the account of the local slot is the trace's own events about it, in order, and leaves none out |
| `LeechTrace.SlotAccounted` | `src/companion/leech_recovery.cpp:198-218` | of an admissible trace with a closed account: a slot that was taken has one gate answer; a proven one is followed by the one matching inverse, called once; an unproven one by none; the slot is given back exactly if that call returned; without a slot nothing is asked or released |
| `LeechTrace.AcknowledgedStays` | `src/companion/leech_recovery.cpp:923-931` | an acknowledged acceptance stays one in every longer trace |
| `LeechTrace.MayGoOn` | `src/companion/leech_recovery.cpp:369-439` | the next call of the main line is admissible after the one before it |
| `LeechFault.PublicationInventsNoRestart` | `src/companion/leech_recovery.cpp:39-71` | after a local publication only a native unwind, a failed inverse or a changed identity can demand a restart; anything else is a publication not delivered |
| `LeechFault.RestartIsKept` | `src/companion/leech_recovery.cpp:39-71` | a demanded restart is recorded unless shielded, and never withdrawn |
| `LeechFault.FirstDiagnosisStands` | `src/companion/leech_recovery.cpp:39-71` | the first terminal diagnosis stands unless something of higher rank comes |
| `LeechFault.RetryWithdrawn` | `src/companion/leech_recovery.cpp:39-71` | a serious fault withdraws the offer to retry and owes a final record |
| `LeechRecovery.Recovery.constructor` | `src/companion/leech_recovery.cpp:744-752` | armed, no claim, no native trace |
| `LeechRecovery.Recovery.ClaimControl` | `src/companion/leech_recovery_control.cpp:611-621` | claims exactly if enabled, running, ready, identified and the latch is free |
| `LeechRecovery.Recovery.Others` | `src/companion/leech_recovery_control.cpp:360-422` | what the worker and the console may do between two accesses: the latch once taken stays |
| `LeechRecovery.Recovery.Fault` | `src/companion/leech_recovery.cpp:39-71` | writes the diagnosis of the fault function and keeps the invariant |
| `LeechRecovery.Recovery.Queue` | `src/companion/leech_recovery.cpp:72-76` | one more record, or the quota fault |
| `LeechRecovery.Recovery.Transition` | `src/companion/leech_recovery.cpp:77-82` | enters the phase and queues its record, or faults; never both skipped |
| `LeechRecovery.Recovery.OwnerClockFault` | `src/companion/leech_recovery.cpp:767-777` | losing the clock ends a running request |
| `LeechRecovery.Recovery.Timely` | `src/companion/leech_recovery.cpp:171-197` | a sample below every deadline in force, or none |
| `LeechRecovery.Recovery.Lease` | `src/companion/leech_recovery.cpp:171-197` | true means checked, sampled below the deadlines, and nothing else written; false never continues a terminal attempt |
| `LeechRecovery.Recovery.ObserveFailure` | `src/companion/leech_recovery.cpp:219-227` | an observed exception ends the attempt and demands a restart |
| `LeechRecovery.Recovery.FinishObservation` | `src/companion/leech_recovery.cpp:228-251` | takes an answer only from the owner thread, in the right phase, once, with the awaited nonzero id and before the deadline; everything else is recorded and not believed |
| `LeechRecovery.Recovery.Judge` | `src/companion/leech_recovery.cpp:240-251` | true only for a timely true answer; otherwise terminal |
| `LeechRecovery.Recovery.Receive` | `src/companion/leech_recovery.cpp:235-247` | notes the callback, and its reason to be refused |
| `LeechRecovery.Recovery.CreateEntry` | `src/companion/leech_recovery.cpp:261-279` | which Create callbacks are let in |
| `LeechRecovery.Recovery.Interruptions` | `src/companion/leech_recovery.cpp:228-331` | inside a native call callbacks may come in any number and order |
| `LeechRecovery.Recovery.Native` | `src/companion/leech_recovery.cpp:369-482` | one native call: logged before it runs, may throw, may be interrupted; the invariant holds either way |
| `LeechRecovery.Recovery.Invoke` | `src/companion/leech_recovery.cpp:382-439` | a native call of the submission, at its place in the order |
| `LeechRecovery.Recovery.Extend` | `src/companion/leech_recovery.cpp:378-426` | a lease between two native calls |
| `LeechRecovery.Recovery.Step` | `src/companion/leech_recovery.cpp:378-408` | a lease and then the next native call |
| `LeechRecovery.Recovery.Describe` | `src/companion/leech_recovery.cpp:378-388` | descriptor type and empty holder, or a refusal without restart |
| `LeechRecovery.Recovery.Allocate` | `src/companion/leech_recovery.cpp:389-392` | an answered slot below sixteen is owned and in the account from here on; any other answer, and an exception, leaves nothing owned |
| `LeechRecovery.Recovery.AskSlot` | `src/companion/leech_recovery.cpp:389-390` | the allocation call and its answer, logged as it is |
| `LeechRecovery.Recovery.Bind` | `src/companion/leech_recovery.cpp:393-401` | a bind that throws leaves entered and not completed |
| `LeechRecovery.Recovery.Fill` | `src/companion/leech_recovery.cpp:402-419` | request filled and heartbeat retired under a live lease |
| `LeechRecovery.Recovery.Retire` | `src/companion/leech_recovery.cpp:408-419` | the retirement and the checks after it |
| `LeechRecovery.Recovery.CancelHeartbeat` | `src/companion/leech_recovery.cpp:420-428` | from the cancellation on every failure demands a restart |
| `LeechRecovery.Recovery.TakeAnswer` | `src/companion/leech_recovery.cpp:432-439` | attributes the enqueue: id returned and callback agree, or one of them is absent |
| `LeechRecovery.Recovery.Send` | `src/companion/leech_recovery.cpp:429-439` | submitted means enqueued, attributed and in the submitted phase |
| `LeechRecovery.Recovery.Inverse` | `src/companion/leech_recovery.cpp:198-209` | proven only if a bind that was entered also completed; the answer is logged |
| `LeechRecovery.Recovery.Release` | `src/companion/leech_recovery.cpp:210-218` | the one inverse that matches what is held, logged before it runs, and its return only if it did not throw |
| `LeechRecovery.Recovery.ReleaseOwned` | `src/companion/leech_recovery.cpp:210-218` | on every way out the gate is asked once for an owned resource; proven: its inverse is called once; not proven: no call, the resource kept, terminal with a restart demanded; nothing owned: nothing asked |
| `LeechRecovery.Recovery.CallInverse` | `src/companion/leech_recovery.cpp:214-217` | the inverse, once, and marked released only if it returned |
| `LeechRecovery.Recovery.Finally` | `src/companion/leech_recovery.cpp:440-447` | whatever stopped the submission, the account is closed: given back, or kept with the attempt terminal and a restart demanded; an exception of the inverse is observed |
| `LeechRecovery.Recovery.Reserve` | `src/companion/leech_recovery.cpp:378-401` | first half of the submission |
| `LeechRecovery.Recovery.Submit` | `src/companion/leech_recovery.cpp:402-439` | second half of the submission |
| `LeechRecovery.Recovery.SubmitFinish` | `src/companion/leech_recovery.cpp:369-447` | at most one recipe; on every exit, thrown or not, the trace's account of the slot is closed: no slot was taken, or it was given back by the one proven inverse, or it is kept, terminal, with a restart demanded; in a calm world it submits and releases its holder |
| `LeechRecovery.Recovery.CarryOut` | `src/companion/leech_recovery.cpp:370-447` | the recipe and its way out, with the same account of the slot |
| `LeechRecovery.Recovery.Resolve` | `src/companion/leech_recovery.cpp:369-482` | what each way out of a recipe leaves in the record |
| `LeechRecovery.Recovery.Conclude` | `src/companion/leech_recovery.cpp:440-447` | the filter first, then the release: the slot's account is closed, its inverse the one of what was held; kept means terminal with a restart demanded |
| `LeechRecovery.Recovery.Rebuild` | `src/companion/leech_recovery.cpp:461-472` | a native call of the rebuild with the lease after it |
| `LeechRecovery.Recovery.InstallCreateGuard` | `src/companion/leech_recovery.cpp:349-368` | installed exactly if the guard is in the callback cell; an ambiguous write is never undone |
| `LeechRecovery.Recovery.RebuildSession` | `src/companion/leech_recovery.cpp:448-475` | cleanup, start, create and guard uninterrupted, or a refusal that demands a restart |
| `LeechRecovery.Recovery.Recreate` | `src/companion/leech_recovery.cpp:448-482` | the rebuild of the acknowledged visit |
| `LeechRecovery.Recovery.Forward` | `src/companion/leech_recovery.cpp:310-318` | the native success is forwarded at most once |
| `LeechRecovery.Recovery.Examine` | `src/companion/leech_recovery.cpp:297-309` | the checks of the guard before it forwards |
| `LeechRecovery.Recovery.CreateSuccess` | `src/companion/leech_recovery.cpp:261-331` | a foreign thread, a wrong id, a second call or a late one is not forwarded |
| `LeechRecovery.Recovery.Guarded` | `src/companion/leech_recovery.cpp:284-329` | inside the guard: forwarded once or faulted, depth restored on every exit |
| `LeechRecovery.Recovery.Publish` | `src/companion/leech_recovery.cpp:88-93` | a failed publication ends the attempt |
| `LeechRecovery.Recovery.Flush` | `src/companion/leech_recovery.cpp:94-114` | true means nothing is pending and the record is unchanged |
| `LeechRecovery.Recovery.RetryMeansUntouched` | `src/companion/leech_recovery.cpp:652-670` | of the retry conditions all native ones follow from the recipe not having been entered |
| `LeechRecovery.Recovery.ReleasePreflightClaim` | `src/companion/leech_recovery_control.cpp:625-633` | gives the latch back exactly once and only while the worker runs |
| `LeechRecovery.Recovery.OfferRetry` | `src/companion/leech_recovery.cpp:696-699` | the offer is made exactly after the claim was given back |
| `LeechRecovery.Recovery.Report` | `src/companion/leech_recovery.cpp:671-682` | the terminal phase and the records still owed |
| `LeechRecovery.Recovery.Emit` | `src/companion/leech_recovery.cpp:683-693` | records are flushed or, on a revoked runtime, dropped |
| `LeechRecovery.Recovery.Resume` | `src/companion/leech_recovery.cpp:685-695` | ordinary binding resumes only before cancellation and without a restart demand |
| `LeechRecovery.Recovery.CloseOut` | `src/companion/leech_recovery.cpp:685-699` | binding, then retry |
| `LeechRecovery.Recovery.FinishTerminal` | `src/companion/leech_recovery.cpp:671-700` | an entered recipe never gives its claim back; a calm retriable rejection always does |
| `LeechRecovery.Recovery.Reset` | `src/companion/leech_recovery.cpp:838-842` | a retryable rejection becomes a fresh armed record, with nothing native to clean up |
| `LeechRecovery.Recovery.Renew` | `src/companion/leech_recovery.cpp:822-843` | a retryable rejection ends, waits or gives way exactly as control and fault flag say |
| `LeechRecovery.Recovery.Withdraw` | `src/companion/leech_recovery.cpp:827-831` | a stopped worker withdraws the offer |
| `LeechRecovery.Recovery.Take` | `src/companion/leech_recovery.cpp:851-854` | one request started per claim |
| `LeechRecovery.Recovery.Miss` | `src/companion/leech_recovery.cpp:848-850` | no readable claim is an invalid request |
| `LeechRecovery.Recovery.Begin` | `src/companion/leech_recovery.cpp:846-865` | one request per latched claim, and none the clock cannot hold |
| `LeechRecovery.Recovery.Schedule` | `src/companion/leech_recovery.cpp:855-863` | deadlines are exact multiples of the frequency inside the signed clock range |
| `LeechRecovery.Recovery.ServeRequested` | `src/companion/leech_recovery.cpp:872-884` | records the request and moves on to qualifying |
| `LeechRecovery.Recovery.ServeQualifying` | `src/companion/leech_recovery.cpp:885-921` | waits without writing anything until its qualifying record is observed; submits only in time and after every check |
| `LeechRecovery.Recovery.Quiescent` | `src/companion/leech_recovery.cpp:907-911` | nothing else in flight and the lease holds |
| `LeechRecovery.Recovery.ServeSubmitted` | `src/companion/leech_recovery.cpp:923-927` | accepts only a true answer to this request, and does nothing else on that visit |
| `LeechRecovery.Recovery.Accept` | `src/companion/leech_recovery.cpp:926-927` | acceptance with its witness in the trace |
| `LeechRecovery.Recovery.ServeAccepted` | `src/companion/leech_recovery.cpp:928-931` | the later visit rebuilds, in time and with headroom |
| `LeechRecovery.Recovery.ServeRecreating` | `src/companion/leech_recovery.cpp:932-949` | publishes the new session, with the deadline of its metadata, or faults |
| `LeechRecovery.Recovery.PublishLocally` | `src/companion/leech_recovery.cpp:938-947` | the publication is a fact from here on; its metadata has 65 seconds, and no longer than a second before the attempt ends |
| `LeechRecovery.Recovery.ServePublished` | `src/companion/leech_recovery.cpp:611-651` | from its deadline on a publication ends with a metadata timeout, whatever the inputs; before it a visit either ends it or leaves phase and records alone |
| `LeechRecovery.Recovery.ReadMetadata` | `src/companion/leech_recovery.cpp:542-561` | the inputs are read under a lease and timed again below the overall deadline, or the publication goes on |
| `LeechRecovery.Recovery.Settle` | `src/companion/leech_recovery.cpp:624-650` | metadata that matches ends the attempt well at any time, and nothing else does without a restore; on a stable world past the metadata deadline there is no restore but a timeout |
| `LeechRecovery.Recovery.CompleteMetadata` | `src/companion/leech_recovery.cpp:528-534` | ends observed, coherent or unverified, and demands no restart of its own |
| `LeechRecovery.Recovery.Prologue` | `src/companion/leech_recovery.cpp:822-867` | what every visit does first; an entered recipe keeps its request, its deadlines and its claim |
| `LeechRecovery.Recovery.Proceed` | `src/companion/leech_recovery.cpp:866-871` | past the deadline, or without admission, the attempt ends |
| `LeechRecovery.Recovery.Dispatch` | `src/companion/leech_recovery.cpp:872-953` | the phase's own part; which visits end with it; a calm visit makes the phase's progress |
| `LeechRecovery.Recovery.Epilogue` | `src/companion/leech_recovery.cpp:954-955` | ends a terminal attempt, otherwise flushes and publishes |
| `LeechRecovery.Recovery.Work` | `src/companion/leech_recovery.cpp:872-956` | the phase's part and the closing records; a visit that waits for its qualifying record writes, flushes and publishes nothing |
| `LeechRecovery.Recovery.Service` | `src/companion/leech_recovery.cpp:778-957` | one visit on a qualified capture: keeps everything that is kept for ever, and in a calm world advances |
| `LeechRecovery.Recovery.ServiceUnsupported` | `src/companion/leech_recovery.cpp:782-820` | an unqualified capture can only let time run out and tidy up |
| `LeechRecovery.Recovery.Expire` | `src/companion/leech_recovery.cpp:790-797` | expires exactly at the deadlines in force |
| `LeechRecovery.Recovery.Tidy` | `src/companion/leech_recovery.cpp:798-816` | a terminal attempt gets its final phase and drops what it cannot record |
| `LeechRecovery.Recovery.Anything` | `src/companion/leech_recovery.cpp:228-331` | any callback, visit or control action keeps the invariant and what is kept for ever |
| `LeechRecovery.Recovery.Run` | `src/companion/leech_recovery.cpp:778-957` | every run of any length: the native trace is admissible, the slot's account is closed, it is marked released exactly if given back, and kept only with a restart demanded; an entered recipe keeps the latch for ever and is never retryable; requests started never exceed claims |
| `ReconFix.DecodeEncode` | `src/companion/recon_fix.cpp:22-27` | the four bytes of a displacement round-trip |
| `ReconFix.CorrectionReachesConstant` | `src/companion/recon_fix.cpp:41-55` | a valid profile's corrected operand addresses the constant, and no other byte changes |
| `ReconFix.RevertRestores` | `src/companion/recon_fix.cpp:105-123` | writing the old displacement back restores the original bytes exactly |
| `ReconFix.Host.constructor` | `src/companion/recon_fix.cpp:131-150` | the host before the fix |
| `ReconFix.Host.Qualify` | `src/companion/recon_fix.cpp:131-200` | accepts exactly a valid profile on original protection with known bytes |
| `ReconFix.Host.ExamineBytes` | `src/companion/recon_fix.cpp:165-190` | known original and corrected digests, or the reason |
| `ReconFix.Host.Write` | `src/companion/recon_fix.cpp:214-219` | one displacement write that may fail after taking effect |
| `ReconFix.Host.Correct` | `src/companion/recon_fix.cpp:216-262` | done means corrected bytes, execute-read protection and a flush, in that order |
| `ReconFix.Host.Close` | `src/companion/recon_fix.cpp:240-262` | protection back, identity checked, flushed |
| `ReconFix.Host.OriginalState` | `src/companion/recon_fix.cpp:86-95` | proven exactly by original protection and original bytes |
| `ReconFix.Host.RecoverWithoutWrite` | `src/companion/recon_fix.cpp:86-104` | recovered means original protection, with at most one protection change and no write |
| `ReconFix.Host.Rollback` | `src/companion/recon_fix.cpp:105-123` | restored means original bytes, execute-read protection and a flush |
| `ReconFix.Host.Undo` | `src/companion/recon_fix.cpp:263-295` | disabled or rolled back only if proven original, else fatal |
| `ReconFix.Host.RunReconFix` | `src/companion/recon_fix.cpp:131-295` | Active means corrected, protected, constant matching and flushed; Passive, Disabled and RolledBack mean original bytes and protection; everything else is Fatal; Passive mutates nothing |
| `LogQueue.RingQueue.constructor` | `src/companion/steam_observer_log.cpp:539-576` | an empty ring |
| `LogQueue.RingQueue.Push` | `src/companion/steam_observer_log.cpp:545-559` | appends the event with the next number, or refuses exactly when full |
| `LogQueue.RingQueue.TakeBatch` | `src/companion/steam_observer_log.cpp:564-576` | moves the oldest entries, in order, as many as fit |
| `LogFile.AppendLine` | `src/companion/steam_observer_log.cpp:439-463` | what one more line adds to bytes, events and footer |
| `LogFile.AddShown` | `src/companion/steam_observer_log.cpp:53-64` | the saturating counter shows the true count up to the maximum |
| `LogFile.MissedAnswers` | `src/companion/steam_observer_log.cpp:446-463` | the answers that leave a whole line uncounted: a failure reported for the whole line, or a claim beyond it when all of it arrived |
| `LogFile.OutputFile.constructor` | `src/companion/steam_observer_log.cpp:439-463` | nothing written |
| `LogFile.OutputFile.Fail` | `src/companion/steam_observer_log.cpp:414-427` | only a live status can fail, and only once |
| `LogFile.OutputFile.WriteRecord` | `src/companion/steam_observer_log.cpp:439-463` | never past the limit, ordinary records never into the footer reserve, nothing after a partial line |
| `LogFile.OutputFile.Record` | `src/companion/steam_observer_log.cpp:439-463` | the events of the file grow by the written one if its write was reported in full, and also if all of it arrived without that report |
| `LogFile.OutputFile.Put` | `src/companion/steam_observer_log.cpp:446-462` | one append with its byte count |
| `LogWriter.Writer.constructor` | `src/companion/steam_observer_log.cpp:904-929` | prepared, all ledgers zero |
| `LogWriter.Writer.Publish` | `src/companion/steam_observer_log.cpp:539-563` | one attempt is queued, abandoned, dropped for contention or dropped for a full queue |
| `LogWriter.Writer.Take` | `src/companion/steam_observer_log.cpp:564-576` | the batch is the oldest queued events, in order |
| `LogWriter.Writer.Append` | `src/companion/steam_observer_log.cpp:517-538` | one event line, formatted and written, or the writer fails |
| `LogWriter.Writer.AppendAnchor` | `src/companion/steam_observer_log.cpp:488-516` | one anchor or footer line, formatted and written, or not |
| `LogWriter.Writer.WriteEvent` | `src/companion/steam_observer_log.cpp:836-839` | one event written, or the writer fails |
| `LogWriter.Writer.GiveUp` | `src/companion/steam_observer_log.cpp:840-841` | a failed batch is abandoned in full |
| `LogWriter.Writer.PumpBatch` | `src/companion/steam_observer_log.cpp:832-843` | a batch ends written or abandoned, none in between |
| `LogWriter.Writer.AbandonQueue` | `src/companion/steam_observer_log.cpp:577-586` | empties the queue into the abandoned count |
| `LogWriter.Writer.WriteAnchor` | `src/companion/steam_observer_log.cpp:488-516` | an anchor or the one footer |
| `LogWriter.Writer.Terminal` | `src/companion/steam_observer_log.cpp:587-596` | the footer fits whenever the file is reliable; never after a partial line |
| `LogWriter.Writer.EventsAreExact` | `src/companion/steam_observer_log.cpp:539-596` | the file's events are exactly 1..written if and only if no event line is wholly in the file without a report of that; otherwise there is exactly one more, and the writer has ended |
| `LogWriter.UncountedEvent` | `src/companion/steam_observer_log.cpp:832-843` | a run, for either kind of answer, that ends with its one event in the file and no event counted |
| `LogWriter.Writer.CountersBalance` | `src/companion/steam_observer_log.cpp:539-596` | attempts = queued + written + abandoned + both drop counters |
| `LogWriter.Writer.WriteStartup` | `src/companion/steam_observer_log.cpp:464-476` | the startup record |
| `LogWriter.Writer.PumpBatches` | `src/companion/steam_observer_log.cpp:832-843` | a calm pump writes everything queued |
| `LogWriter.Writer.Pump` | `src/companion/steam_observer_log.cpp:821-872` | a pump ends live with nothing in the batch, or closed; a closed writer does nothing |
| `LogWriter.Writer.Housekeep` | `src/companion/steam_observer_log.cpp:845-864` | counters and anchors between batches |
| `LogWriter.Writer.Stop` | `src/companion/steam_observer_log.cpp:876-888` | stopping empties the queue and writes nothing more |
| `LogProtocol.StepKeeps` | `src/companion/steam_observer_log.cpp:539-596` | any access of any number of producers and the writer, the status changing without the lock, keeps the lock exclusive and every event in one place |
| `LogProtocol.ProduceKeepsLock` | `src/companion/steam_observer_log.cpp:545-562` | only the holder of the queue lock is past the try, and nobody is about to push once the final look found the queue empty |
| `LogProtocol.TakeKeeps` | `src/companion/steam_observer_log.cpp:564-576` | the batch is moved under the lock; the final look comes after every push admitted before it |
| `LogProtocol.EventsConserved` | `src/companion/steam_observer_log.cpp:539-596` | in every run: publish attempts = pending + queued + in batch + written + abandoned + dropped, and the output is 1,2,3,... |
| `LogProtocol.AllAccounted` | `src/companion/steam_observer_log.cpp:577-596` | when all producers are done and the queue is drained, every attempt is written, abandoned or dropped |
| `LogProtocol.NothingStranded` | `src/companion/steam_observer_log.cpp:577-596` | after the final drain the queue stays empty for ever, although a producer may still push after the end |
| `LogProtocol.LatePush` | `src/companion/steam_observer_log.cpp:545-562` | a run in which the end comes between a producer's look under the lock and its push, and the event is queued after it |
| `CallbackTiming.WithinWholeSpan` | `src/companion/leech_recovery_policy.cpp:14-35` | the counted time of a legal history is never negative and never above the whole span |
| `CallbackTiming.ExactUnlessDropped` | `src/companion/leech_recovery_policy.cpp:108-116` | the ticks are exactly the callback's own and filter time if and only if no unwind dropped an open own stretch |
| `CallbackTiming.DroppedExample` | `src/companion/leech_recovery_policy.cpp:108-116` | a legal history, in the order of a guard with a search filter, in which an unwind drops time |
| `CallbackTiming.DroppedIsDispatch` | `src/companion/leech_recovery_policy.cpp:108-116` | where every unwind follows a filter, the dropped time is exactly the time between the filter's end in own code and the unwind: the dispatch of the exception |
| `CallbackTiming.NoOverflow` | `src/companion/leech_recovery_policy.cpp:14-35` | the arithmetic overflow branches cannot be taken |
| `CallbackTiming.RunningStep` | `src/companion/leech_recovery_policy.cpp:55-131` | one call on a running sample |
| `CallbackTiming.HearStep` | `src/companion/leech_recovery_policy.cpp:55-131` | the sample and the history it has heard stay in step |
| `CallbackTiming.SampleTellsHistory` | `src/companion/leech_recovery_policy.cpp:55-131` | for every call sequence with any clock inputs the automaton state is the one its history determines |
| `CallbackTiming.ValidIsWithinSpan` | `src/companion/leech_recovery_policy.cpp:117-128` | a valid completed sample has a legal history and its ticks lie within the span |
| `CallbackTiming.CompletedIsFrozen` | `src/companion/leech_recovery_policy.cpp:55-131` | a completed sample never changes again |
| `CallbackTiming.DirtyNeverValid` | `src/companion/leech_recovery_policy.cpp:55-65` | a sample that was not fresh is never completed as valid |
| `CallbackTiming.Timing.ClaimTiming` | `src/companion/leech_recovery_policy.cpp:55-65` | starts a fresh sample once, as the automaton does |
| `CallbackTiming.Timing.EnterNativeCode` | `src/companion/leech_recovery_policy.cpp:66-76` | closes the own stretch, as the automaton does |
| `CallbackTiming.Timing.LeaveNativeCode` | `src/companion/leech_recovery_policy.cpp:77-83` | opens an own stretch, as the automaton does |
| `CallbackTiming.Timing.BeginFilterCode` | `src/companion/leech_recovery_policy.cpp:84-94` | starts a filter stretch in either parent, as the automaton does |
| `CallbackTiming.Timing.EndFilterCode` | `src/companion/leech_recovery_policy.cpp:95-107` | returns to the parent, as the automaton does |
| `CallbackTiming.Timing.BeginUnwindCode` | `src/companion/leech_recovery_policy.cpp:108-116` | opens an own stretch without closing the one before, as the automaton does |
| `CallbackTiming.Timing.FinalizeTiming` | `src/companion/leech_recovery_policy.cpp:117-128` | completes valid or invalid, as the automaton does |
| `CallbackTiming.Timing.InvalidateTiming` | `src/companion/leech_recovery_policy.cpp:129-131` | marks a running sample invalid, as the automaton does |
| `CallbackTiming.Timing.TakeEndpoint` | `src/companion/leech_recovery_policy.cpp:14-21` | accepts a monotone sound endpoint, as the automaton does |
| `CallbackTiming.Timing.Close` | `src/companion/leech_recovery_policy.cpp:22-28` | adds the open stretch, as the automaton does |
| `CallbackTiming.Timing.constructor` | `src/companion/leech_recovery_policy.cpp:55-65` | a fresh sample |
| `CaptureScope.OneRoot` | `src/companion/steam_reporting_capture.cpp:94-118` | the primary row reached by a chain is unique |
| `CaptureScope.CycleHasNoRoot` | `src/companion/steam_reporting_capture.cpp:94-118` | a cyclic chain reaches no primary row |
| `CaptureScope.DirectoryEntry` | `src/companion/steam_reporting_capture.cpp:80-93` | the binary search finds a row exactly if it is in the validated directory |
| `CaptureScope.LinkFrom` | `src/companion/steam_reporting_capture.cpp:94-118` | the parent of a row as the image says it, or unusable |
| `CaptureScope.RootEntry` | `src/companion/steam_reporting_capture.cpp:94-119` | follows the chain to its primary row; failure means there is none; ends on cyclic data |
| `CaptureScope.FindPrimary` | `src/companion/steam_reporting_capture.cpp:128-145` | the primary row of the function that contains the address |
| `CaptureScope.FindScope` | `src/companion/steam_reporting_capture.cpp:120-164` | the fragments are exactly the rows whose chain ends in that primary row, or there is no scope |
| `CaptureScope.FragmentsDisjoint` | `src/companion/steam_reporting_capture.cpp:141-164` | fragments are disjoint and in order |
| `CaptureScope.FragmentsExact` | `src/companion/steam_reporting_capture.cpp:141-164` | an extent is a fragment if and only if it is a row reaching the primary row |
| `CaptureScope.WalkOn` | `src/companion/steam_reporting_capture.cpp:94-118` | walks that meet go on together |
| `PeImage.ReadSections` | `tools/pe_reader.cpp:319-364` | accepts exactly the tables whose sections are placed and pairwise compatible |
| `PeImage.OverlappingIsIncompatible` | `tools/pe_reader.cpp:343-358` | the interval test is exactly sharing an address or a file byte |
| `PeImage.MapRva` | `tools/pe_reader.cpp:386-442` | the mapping function of the reader, with what is left after it |
| `PeImage.FindSection` | `tools/pe_reader.cpp:873-880` | the first section that covers the range |
| `PeImage.MapImageRva` | `tools/pe_reader.cpp:881-896` | the mapping function of the image |
| `PeImage.MapInBounds` | `tools/pe_reader.cpp:376-442` | a mapped range lies in the file and in the image |
| `PeImage.MapInjective` | `tools/pe_reader.cpp:386-442` | distinct addresses map to distinct file offsets, headers included |
| `PeImage.MapBytewise` | `tools/pe_reader.cpp:386-442` | a mapped range is mapped byte by byte |
| `PeImage.LookupsAgree` | `tools/pe_reader.cpp:386-442` | both mapping functions agree on every nonempty range |
| `PeImage.EmptyLookupsAgree` | `tools/pe_reader.cpp:881-896` | on empty ranges they differ exactly at the end of a section's raw data inside its span |
| `PeImage.EmptyLookupsCanDiffer` | `tools/pe_reader.cpp:881-896` | a concrete accepted image where they differ |
| `EvidenceText.Decimal` | `tools/genuine_manifest.cpp:14-23` | the decimal reader with its 64-bit guard |
| `EvidenceText.DecimalExact` | `tools/genuine_manifest.cpp:14-23` | for a maximum of at least nine it accepts exactly the printed numbers up to the maximum |
| `EvidenceText.SmallMaximumAdmitsMore` | `tools/genuine_manifest.cpp:14-23` | below nine it accepts the number after the maximum |
| `EvidenceText.DecimalRespectsMaximum` | `tools/genuine_manifest.cpp:14-23` | it respects its maximum if and only if that is at least nine |
| `EvidenceText.HexExact` | `tools/genuine_manifest.cpp:24-35` | reading and printing hexadecimal digits of one width are inverse |
| `EvidenceText.Hex32` | `tools/genuine_manifest.cpp:24-35` | accepts exactly the printed words |
| `EvidenceText.HexText` | `tools/genuine_manifest.cpp:95-100` | prints the word in eight upper-case digits |
| `EvidenceText.WordText` | `tools/genuine_manifest.cpp:24-35` | a text is one word's or none's |
| `EvidenceText.FormatDigest` | `src/shared/digest.cpp:18-27` | two digits a byte |
| `EvidenceText.ParseDigest` | `src/shared/digest.cpp:3-17` | accepts exactly the printed digests |
| `EvidenceText.SameDigest` | `src/shared/digest.cpp:18-27` | different digests print differently |
| `EvidenceText.PartsExact` | `tools/genuine_manifest.cpp:36-48` | dotted decimal parts and their text are inverse |
| `EvidenceText.ReadVersion` | `tools/genuine_manifest.cpp:36-48` | accepts exactly the printed version quads |
| `EvidenceText.ShowIsShort` | `tools/genuine_manifest.cpp:91-94` | a printed number is no longer than its bound |
| `EvidenceFile.CleanIsScanned` | `tools/genuine_manifest.cpp:52-67` | the loop accepts exactly nonempty files of nonblank plain lines within both limits |
| `EvidenceFile.Cursor.constructor` | `tools/genuine_manifest.cpp:49-51` | at the start of the text |
| `EvidenceFile.Cursor.Validate` | `tools/genuine_manifest.cpp:52-68` | answers exactly whether the file is clean |
| `EvidenceFile.Cursor.Take` | `tools/genuine_manifest.cpp:69-78` | takes the next line exactly if it is the wanted field |
| `EvidenceFile.Cursor.Literal` | `tools/genuine_manifest.cpp:79-82` | and its value the wanted one |
| `EvidenceFile.Cursor.End` | `tools/genuine_manifest.cpp:83-85` | nothing is left |
| `EvidenceFile.FieldSound` | `tools/genuine_manifest.cpp:69-78` | a field taken is the line it was read from |
| `EvidenceFile.FieldComplete` | `tools/genuine_manifest.cpp:69-78` | a written field is taken back with its value |
| `EvidenceFile.FieldsSound` | `tools/genuine_manifest.cpp:240-276` | fields read from a text are the text |
| `EvidenceFile.FieldsComplete` | `tools/genuine_manifest.cpp:221-239` | a written list of fields is read back |
| `EvidenceFile.TextByFields` | `tools/genuine_manifest.cpp:221-276` | a text is a record's file exactly if its fields are the record's values |
| `EvidenceFile.TextIsClean` | `tools/genuine_manifest.cpp:52-67` | the file check never refuses a written record |
| `EvidenceFile.Format` | `tools/genuine_manifest.cpp:221-239` | writes exactly the successful qualifications, as the specified text |
| `EvidenceFile.ValuesInjective` | `tools/genuine_manifest.cpp:221-239` | different records have different files |
| `EvidenceFile.ReadImage` | `tools/genuine_manifest.cpp:252-258` | file size to image size, or no record has this text |
| `EvidenceFile.ReadOutcome` | `tools/genuine_manifest.cpp:264-272` | exports to the end of the file, or no record has this text |
| `EvidenceFile.ReadRecord` | `tools/genuine_manifest.cpp:240-274` | all fields in order, or no record has this text |
| `EvidenceFile.Parse` | `tools/genuine_manifest.cpp:240-277` | accepts a text if and only if it is the file of a successful qualification, and yields that record |
| `EvidenceFile.ParseFormatted` | `tools/genuine_manifest.cpp:221-277` | parsing what was formatted gives the record back |
| `EvidenceFile.FormatParsed` | `tools/genuine_manifest.cpp:221-277` | formatting what was parsed gives the text back |
| `NativeSnapshot.ApartMeansNoCommonAddress` | `src/companion/leech_recovery_native.cpp:91-94` | the interval test is exactly having no common address |
| `NativeSnapshot.Observer.constructor` | `src/companion/leech_recovery_native.cpp:41-44` | nothing recorded |
| `NativeSnapshot.Observer.Interval` | `src/companion/leech_recovery_native.cpp:87-96` | records exactly a nonempty range apart from all recorded ones, with room left |
| `NativeSnapshot.Observer.String` | `src/companion/leech_recovery_native.cpp:97-118` | ready exactly for a well-formed string whose buffer can be recorded |
| `NativeSnapshot.Observer.AppendString` | `src/companion/leech_recovery_native.cpp:119-124` | one more string, apart from all before |
| `NativeSnapshot.Observer.RootString` | `src/companion/leech_recovery_native.cpp:241-249` | a root string takes its buffer |
| `NativeSnapshot.Observer.Vector` | `src/companion/leech_recovery_native.cpp:125-146` | ready means its elements are the next strings, thirty-two bytes apart, and its buffer recorded |
| `NativeSnapshot.Observer.PublicIp` | `src/companion/leech_recovery_native.cpp:147-162` | counted, terminated and recorded |
| `NativeSnapshot.Observer.ReadSlot` | `src/companion/leech_recovery_native.cpp:168-186` | one slot: its count and its strings where the layout puts them; a heartbeat's vector as its header says, its buffer recorded |
| `NativeSnapshot.Observer.ReadPool` | `src/companion/leech_recovery_native.cpp:163-188` | sixteen slots, and the first free slot is the least free slot |
| `NativeSnapshot.Observer.Row` | `src/companion/leech_recovery_native.cpp:274-284` | a registry row of a wanted kind is read once, under its own index |
| `NativeSnapshot.Observer.Registry` | `src/companion/leech_recovery_native.cpp:260-285` | each pool found in exactly one row of the registry |
| `NativeSnapshot.Observer.Observe` | `src/companion/leech_recovery_native.cpp:189-311` | ready means consistent: every buffer of a string, vector, address text or pool recorded and apart, ids distinct and issued, references covered, least free slots, idle tasks counted |
| `NativeSnapshot.ReadSnapshot` | `src/companion/leech_recovery_native.cpp:448-463` | a snapshot is taken exactly if two passes are ready and the same; ready but different is a change; otherwise the refusal of the pass |
| `NativeSnapshot.SnapshotReadTwice` | `src/companion/leech_recovery_native.cpp:448-463` | whatever a taken snapshot says was read twice with the same answer, whatever the host changed meanwhile: every string header and terminator, every vector, every reference count, and where the pools stand in the registry |
| `NativeSnapshot.Fits` | `src/companion/leech_recovery_native.cpp:295-301` | the checks on one task against those before it |
| `NativeSnapshot.AcceptedFits` | `src/companion/leech_recovery_native.cpp:297-301` | a consistent table passes the checks made while reading it |
| `NativeSnapshot.FitsAccepted` | `src/companion/leech_recovery_native.cpp:295-310` | those checks and the reference count make it consistent |
| `NativeSnapshot.HolderCounts` | `src/companion/leech_recovery_native.cpp:305-309` | a holder is counted |
| `NativeSnapshot.CountHolders` | `src/companion/leech_recovery_native.cpp:305-309` | counts exactly the live tasks holding the slot |
| `NativeSnapshot.CountReferences` | `src/companion/leech_recovery_native.cpp:302-310` | exactly whether every slot has enough references |
| `NativeSnapshot.ReadTasks` | `src/companion/leech_recovery_native.cpp:286-310` | accepted exactly if readable and consistent, and then the free count is the number of idle tasks |
| `NativeSnapshot.SameStrings` | `src/companion/leech_recovery_native.cpp:338-342` | two stretches of strings are the same |
| `NativeSnapshot.SameSlot` | `src/companion/leech_recovery_native.cpp:333-344` | exactly the slots that kept payload, vector and strings |
| `NativeSnapshot.RequireHeartbeatFirstFree` | `src/companion/leech_recovery_native.cpp:489-519` | ready exactly if only the old heartbeat was released and the next slot is free |
| `NativeSnapshot.ConsistentIsBounded` | `src/companion/leech_recovery_native.cpp:163-188` | every string range a consistent observation names lies inside its strings |
| `NativeSnapshot.FreeSlotUnheld` | `src/companion/leech_recovery_native.cpp:513-514` | no live task holds a free slot |
| `NativeSnapshot.NextSlotForced` | `src/companion/leech_recovery_native.cpp:508-519` | on consistent observations the checks on the next slot refuse nothing, and that slot is the lower of the old one and the one free before |
| `NativeSnapshot.NoAddressTwice` | `src/companion/leech_recovery_native.cpp:87-96` | no address belongs to two of: the strings of roots and tables, the kernel vector, the heartbeat vectors, the address text, the three pools |
| `NativeSnapshot.StorageIsRecorded` | `src/companion/leech_recovery_native.cpp:87-96` | whatever a consistent observation owns is among its recorded extents |

## Left out

- Win32 and native code behind an operation (protection changes, file and pipe input and output, access control, signature checks, hashing, the allocator): each is an operation that may fail or take effect anyway; where a read or query succeeds it is truthful.
- Assembly entry thunks, vtables, LastError preservation and exception-handling mechanics beyond "this call may throw".
- Byte and address tables, generated profiles and their generators: they are parameters.
- Command-line tools, reports, console text and marker files.
- The legacy reporting writer, its report ring and the status snapshot reader.
- The genuine manifest parser: it is built from the same cursor and readers as the evidence parser.
- Error texts of the evidence reader: a refusal is one value, which check refused first is not told apart.
- SHA-256 itself: a hash is any fixed function of the bytes.
- Counters, coverage reasons, events and forwarded object methods of the dispatcher: they are written and never read by what is proved.
- LeechRecovery.Recovery.ServePublished: the native calls that restore metadata and what they may throw are not modelled; before the deadline a visit that has read its inputs may end with any diagnosis or none.
- LeechRecovery.Recovery.Settle: the same restore is an arbitrary answer here.
- Checks of the recovery whose inputs are not modelled (captured frames, task identity, credits, quiescence, allocator): each is a check with an arbitrary answer, true in a calm world.
- NativeSnapshot.Observer.Observe: one direction; a consistent picture may still be refused, for a budget or an unreadable part.
- The reads of an observation that come before its strings (readiness, hooks, imports, names, the component table) and the checks of the three vtables: one arbitrary outcome. Raw task bytes beside state, id and holder are not kept.
- ObserverProtocol.StepKeeps: the step system holds its state in values; memory order is sequential consistency, as the interlocked operations give it.
- GenuinePublication.StepKeeps: the same, and the record allocator never hands out one record twice.
- LogProtocol.StepKeeps: the same; the writer's file is its list of written numbers there, its bytes are in `LogFile`.
- LogFile.OutputFile.WriteRecord: a line is its kind and lengths, its text is not modelled.
- ReconFix.Host.RunReconFix: the pages around the patched function keep their protection, as nothing in the code changes them.
- PeImage.ReadSections: starts from decoded section headers; the directories behind them are not parsed.
- CaptureScope.FindScope: rows are decoded values; reading them may fail, and then no scope is found.
- InstallTransaction.HostPage.InstallObserver: calls running through a wrapper while it is rolled back are part of the observer protocol, not of the page.
