# A verified model of the session, container, job, shutdown and access logic of gorgany

Dafny 4.11. `dafny verify dfyconfig.toml` checks everything.

The centre is the database-backed session: many replicas each hold live session objects over one shared
row. `SessionEntity` and `AttributeLog` give a session object and its replay log, `SessionReconcile` the
write that loses a version race, `WriteThrough` what failing writes leave behind, `SessionProtocol` every
interleaving of any number of objects over the row. `RevocationMemory`, `SessionMediator`,
`RevocationRuns` and `RefusalSpans` are the mediator's memory of revoked ids, alone, interleaved, and over time;
`MemorySessions` the in-memory store's half of it; `KeyedMutexes` the per-id lock; `SessionSweep` the batched sweep.
`AuthStrategy` and `AuthRuns` put rotation, login and logout on top. Independent of these: `Resolution` and
`Containers` (dependency resolution as a depth-first search), `Schedulers`, `EventBuses` and `Shutdowns`
(jobs, async events and the ordered drain as concurrent machines), `JsonDepth` (the nesting check against
RFC 8259), `IdentityMemo` and `AccessControl` (who the caller is and what is allowed), `OverrideWalks`
(shadowed fields of embedded structs).

Code that updates state in place is a class whose methods are proved equal to a specification function.
Concurrency is a step machine over the same functions: a step is what happens between two locks or store
calls, and the results hold over every run. Orders that Go leaves open (map iteration), store answers and
what other replicas do in between are parameters the results hold for all of.

## Findings

Each is a lemma with the exact condition, and the code is modelled as it is.

- A setter that lands between the snapshot and the settling of another write of the same object can lose its
  mark (`SessionEntity.LateSetterSurvivesExactly`, `SessionProtocol.LateSetterIsLost`), and a loaded session
  written with nothing marked is an unguarded write of the whole row (`SessionEntity.SafeToWriteExactly`): two
  setters and a commit between their writes reach it, and undo the commit (`WriteThrough.SecondWriteUndoesACommit`).
  `SessionProtocol` takes setter and write as one unit per object, and that something is marked.
- A refusal can end before its deadline with no full set about: a delete retried for a debt overwrites a longer
  tombstone of the id with the debt's deadline, and a removal replaces a longer debt or tombstone with its own retention
  (`RefusalSpans.RefusalsSurviveExactly`, reached in `RefusalSpans.PaidRetryEndsARefusalEarly` and
  `RefusalSpans.RepeatedRemovalEndsARefusalEarly`). The comment at
  auth/session_mediator.go:489-491 says the id stays refused as long as its session could have been honoured.
- A delete that fails while an expired record of an earlier failure is still there is not owed: the old record
  keeps its deadline (`RevocationRuns.RevocationIsRememberedExactly`, reached in
  `RefusalSpans.FailedDeleteIsForgotten`).
- Eviction may drop an entry that is not soonest exactly when the empty string is a key, the only soonest, and not
  alone (`RevocationMemory.ScanMisledExactly`). The mediator admits no empty id; the memory store does.
- A sweep reports that rows remain when none does exactly when as many had expired as its batches hold
  (`SessionSweep.SessionTable.DeleteExpired`, reached in `SessionSweep.ExactMultipleIsMisreported`).
- `Stop` racing `Start` may return with loops still to launch, and their jobs run afterwards
  (`Schedulers.StopEndsEverythingExactly`, reached in `Schedulers.StopRacesStart`); its comment says it waits for
  in-flight runs.
- The memo can answer as another principal when a session is published between key and resolution and put back
  afterwards (`IdentityMemo.UndoneChangeAnswersAsAnother`, exactly when in `IdentityMemo.StoredIsRightExactly`); the
  comment at model/access_control.go:625-628 says two goroutines store the same identity twice. A principal shares
  its key with another exactly when one of its ids holds a NUL (`IdentityMemo.SharesKeyExactly`).
- model/access_control.go:758-764 says every decision surface goes through `evaluateOperationRule`. The type check and
  the field read do not, and pass over deny (`AccessControl.TypeCheckDiffersExactly`,
  `AccessControl.FieldReadDepartsExactly`, a denied field read in `AccessControl.DeniedFieldIsRead`).

## Model

| member | source | states |
|---|---|---|
| SessionProtocol.StoredBagIsCommitsInOrder | auth/db_session.go:487-544 | in every run of any number of session objects over one row, the stored bag is the inserted bag with the committed writers' mutations replayed in commit order, and each key holds what the last committed mutation of it said |
| SessionProtocol.ClearedKeyStaysCleared | auth/db_session.go:525-544 | a key whose last committed mutation cleared it stays out of the row until a later commit sets it |
| SessionProtocol.CommitReplaysTheWritersLog | auth/session_mediator.go:267-311 | a save that lands adds exactly its writer's uncommitted mutations to the stored bag, whatever others committed before it |
| SessionProtocol.StateChangesRaiseVersion | auth/db_session.go:376-445 | any step that changes the stored user id or bag is a save and raises the version by exactly one; no step changes the version otherwise |
| SessionProtocol.VersionNamesOneState | auth/db_session.go:159-162 | over a whole run versions only grow, and one version names one user id and one bag |
| SessionProtocol.ObjectsHoldTheirVersion | auth/db_session.go:487-523 | in every run a loaded object's bag is its own log replayed on the bag of the version it holds, and an unmarked user id is that version's |
| SessionProtocol.StaleWriterRefused | auth/db_session.go:159-162 | a guarded write from an object that holds another version changes nothing, and reports conflict or gone as the row exists or not |
| SessionProtocol.RetryAloneLands | auth/session_mediator.go:267-311 | in any state a run leads to, however stale the object, re-reading, adopting and writing again lands: the row's bag with the uncommitted mutations replayed, the next version, nothing left to write |
| SessionProtocol.RefusedChangesNothing | auth/session_mediator.go:304-311 | a write that is refused, and one whose call fails, leave the row, the log and every object as they were |
| SessionProtocol.DeletedRowNeverReturns | auth/db_session.go:721-754 | once any replica has deleted the row no later step of any object stores it again; it was inserted once in all |
| SessionProtocol.OnlyTheFirstWriteInserts | auth/session_repository.go:117-124 | a row appears where there was none only by the minted object's first write |
| SessionProtocol.StepKeepsInv | auth/session_mediator.go:219-311 | every step of every object keeps: the row is the last state written, each object is right about its version, at most one insert |
| SessionProtocol.RunKeepsInv | auth/session_mediator.go:219-311 | the same over whole runs; a removed row stays removed and commits are only ever appended |
| SessionProtocol.LateSetterIsLost | auth/session_mediator.go:304-311 | a concrete setter between snapshot and settling: the object then holds a mutation the row does not, with nothing left marked |
| SessionEntity.LateSetterSurvivesExactly | auth/db_session.go:579-613 | a setter that lands between a snapshot and the settling of its write is still marked exactly when the snapshot named some column and not that one |
| SessionEntity.SafeToWriteExactly | auth/db_session.go:413-442 | a loaded object's write respects every possible row's version exactly when something is marked dirty; with nothing marked it may overwrite a newer row unguarded |
| SessionEntity.HeartbeatLeavesState | auth/db_session.go:104-125 | an expiry or activity write lands on any row, however stale the object, and leaves user id, bag and version as they are |
| SessionEntity.GuardedWriteExactly | auth/db_session.go:376-445 | a write of user id or bag lands exactly on the version it was made from, raises it by one, and leaves the columns it did not mark |
| SessionEntity.ConflictLeavesWorkPending | auth/session_mediator.go:291-294 | a conflict is reported only to a writer that still has state to write, also after it adopts the row |
| SessionEntity.RetryLandsOnRereadRow | auth/session_mediator.go:269-290 | a retry on the row just re-read lands and holds both the row's changes and the writer's own |
| SessionEntity.AdoptIdempotent | auth/db_session.go:487-523 | adopting the same row twice is adopting it once |
| SessionEntity.AdoptRebases | auth/db_session.go:487-544 | whatever was set on a copy of an older row, adopting a re-read row gives what setting it on that row would |
| SessionEntity.SuccessfulWriteCarriesEverything | auth/db_session.go:176-195 | a write that lands carries every marked column and no other, and leaves nothing marked and no log |
| SessionEntity.DbSessionEntity.SetUserId | auth/db_session.go:254-259 | the setter of the specification, on the object's own fields |
| SessionEntity.DbSessionEntity.SetExpiry | auth/db_session.go:284-289 | likewise: only the expiry and its mark change |
| SessionEntity.DbSessionEntity.SetLastActivity | auth/db_session.go:309-314 | likewise for the last activity |
| SessionEntity.DbSessionEntity.SetItem | auth/db_session.go:316-324 | the bag, the mark and the log move together |
| SessionEntity.DbSessionEntity.GetItem | auth/db_session.go:326-333 | the value of a key, the empty string when absent |
| SessionEntity.DbSessionEntity.ClearItem | auth/db_session.go:335-340 | removal of one key, marked and logged |
| SessionEntity.DbSessionEntity.ClearItems | auth/db_session.go:342-347 | removal of all keys; the log restarts with it |
| SessionEntity.DbSessionEntity.RecordAttributeOp | auth/db_session.go:270-278 | the log after one more mutation, a clear-all dropping what came before |
| SessionEntity.DbSessionEntity.Snapshot | auth/db_session.go:376-445 | a detached copy naming only the marked columns, guarded and one version up exactly when one of them is state |
| SessionEntity.DbSessionEntity.AdoptPersistedState | auth/db_session.go:487-523 | unmarked columns come from the row, marked ones stay, the bag is the row's with the log replayed |
| SessionEntity.DbSessionEntity.ReplayAttributeOps | auth/db_session.go:527-544 | the loop over the log is the replay of the specification |
| SessionEntity.DbSessionEntity.AdoptPersistedMeta | auth/db_session.go:579-613 | settling clears what the snapshot carried, everything when it named nothing |
| SessionEntity.DbSessionEntity.MarkAllDirty | auth/db_session.go:452-463 | every column but key and version is marked |
| SessionEntity.DbSessionEntity.HasPendingWrite | auth/db_session.go:466-470 | whether anything is marked |
| SessionEntity.DbSessionEntity.NotePersistFailure | auth/db_session.go:183-195 | the failure is remembered and nothing else changes |
| SessionEntity.DbSessionEntity.NotePersistSuccess | auth/db_session.go:198-202 | the failure is forgotten and nothing else changes |
| AttributeLog.ReplayLookup | auth/db_session.go:527-544 | after a replay each key holds what the last operation on it said, and its old value otherwise |
| AttributeLog.EffectIsLastWord | auth/db_session.go:127-147 | two logs do the same to every bag exactly when they have the same last word on every key |
| AttributeLog.RecordAllKeepsEffect | auth/db_session.go:270-278 | dropping everything before a clear-all changes the log's effect on no bag |
| AttributeLog.RecordAllIsShort | auth/db_session.go:270-278 | a recorded log holds a clear-all only as its first operation |
| AttributeLog.ReplayIdempotent | auth/db_session.go:527-544 | replaying a log twice is replaying it once |
| AttributeLog.ReplayConcat | auth/db_session.go:527-544 | replaying two logs in turn is replaying them joined |
| AttributeLog.CommuteExactly | auth/db_session.go:137-147 | two logs commute on every bag exactly when no key has two different last words |
| AttributeLog.DisjointLogsCommute | auth/db_session.go:137-147 | logs that touch different keys and hold no clear-all give the same bag in either order |
| SessionReconcile.SessionRepository.Save | auth/session_repository.go:117-124 | insert when unloaded; otherwise conflict, gone or the marked columns; a failing call changes nothing |
| SessionReconcile.SessionRepository.FindById | auth/session_repository.go:98-106 | the row as it is at the call, or a failure |
| SessionReconcile.SessionRepository.DeleteById | auth/session_repository.go:141-161 | the row is gone and the answer says whether it was there, or a failure and no effect |
| SessionReconcile.Persist | auth/session_mediator.go:304-311 | the entity is settled exactly when its save landed |
| SessionReconcile.PersistReconciling | auth/session_mediator.go:267-297 | the loop over saves, re-reads and adoptions is the reconciliation the lemmas below are about |
| SessionReconcile.ReconcileIsBounded | auth/session_mediator.go:267-279 | it terminates in at least one and at most sessionConflictRetries+1 saves |
| SessionReconcile.CalmNeedsTwoAttempts | auth/session_mediator.go:210-216 | with no foreign commit and no store failure during the call two saves are enough, one from a current copy; a loaded session whose row survives is then written |
| SessionReconcile.FewerCommitsThanAttemptsWrite | auth/session_mediator.go:267-297 | with no call failing and the row surviving, a loaded session is written whenever fewer foreign commits land during the call than it has attempts, one fewer still from a stale copy |
| SessionReconcile.OutcomeSaysWhy | auth/session_mediator.go:267-297 | duplicate exactly for an unloaded session that met a row, failure exactly when the last call failed, gone exactly when the row is, exhausted only with every retry used |
| SessionReconcile.ExhaustionMeansForeignCommits | auth/session_mediator.go:274-279 | reporting exhaustion takes a foreign commit for each attempt but the first, and for the first too if the copy was current |
| SessionReconcile.ReconciledWriteKeepsBoth | auth/session_mediator.go:255-266 | a reconciled write leaves in the row the foreign changes it met with this session's own replayed on them |
| SessionReconcile.FailureLosesNothing | auth/db_session.go:176-195 | a write that does not land leaves the row to the others and its own marks and log as they were |
| SessionReconcile.RefusedMeansCommitted | auth/session_mediator.go:267-290 | a conflict right after a re-read means somebody committed in between |
| WriteThrough.NoPendingErrorMeansAllWritten | auth/db_session.go:176-214 | between operations, whatever others do and whichever calls fail, no pending write error means no marked column and an empty log |
| WriteThrough.SuccessCarriesFailures | auth/session_mediator.go:219-253 | after any number of operations that reached no row, the next write that lands leaves there the last value of every setter among them and every attribute mutation |
| WriteThrough.LandedCarriesAll | auth/session_mediator.go:267-297 | a write that lands in any round carries every marked column but the bag, every logged mutation of that, and leaves nothing pending |
| WriteThrough.LandedAttributes | auth/session_mediator.go:267-297 | a marked bag is the session's own in the row when the first save lands, and after a conflict the bag the row had with the log replayed |
| WriteThrough.FailuresPileUp | auth/session_mediator.go:679-713 | while writes fail, the object owes the last value of each setter and the whole log |
| WriteThrough.AddNeverBringsBack | auth/db_session.go:721-754 | however out of date its look into the store, AddSession of a session that once had a row never stores a deleted row again |
| WriteThrough.AddCarriesTheWholeSession | auth/db_session.go:740-753 | a session AddSession confirms is in the row whole, however little was marked: what it had pending, and for the rest what its look adopted, not its own older copy; the bag is that one with the log replayed, or the row's after a conflict |
| WriteThrough.AddedExactly | auth/db_session.go:721-754 | a session that is not refused is added exactly when the look found it and the reconciling write of all of it lands, or did not, it never had a row and its first save meets none; otherwise the row is left to the others |
| WriteThrough.SecondWriteUndoesACommit | auth/db_session.go:413-442 | for any row and setters a legal run: the first write settles both marks, another process commits, and the second write lands unguarded and puts the old row back |
| WriteThrough.AddSession | auth/db_session.go:721-754 | refused, created or confirmed as the look into the store says, on the cached session that the look may have rebased on the row it found |
| WriteThrough.CreateSession | auth/session_mediator.go:181-208 | one save, its outcome noted, except that of an invalid id nothing is |
| WriteThrough.UpdateSession | auth/session_mediator.go:219-253 | a refused or failed write is noted, a landed one clears the note |
| SessionSweep.SessionTable.DeleteExpired | auth/session_repository.go:254-281 | only expired rows go; success means none is left, and without failures is reported exactly when fewer had expired than all batches hold |
| SessionSweep.SessionTable.DeleteBatch | auth/session_repository.go:254-273 | one statement removes a full batch, or all expired rows when there are fewer |
| SessionSweep.ExactMultipleIsMisreported | auth/session_repository.go:277-280 | two expired rows and two batches of one: reported as remaining, and none does |
| RevocationRuns.RevokedIdIsNeverUsed | auth/session_mediator.go:134-253 | in every interleaving an id with an unexpired tombstone or pending record is not cached, and no step serves, writes or caches it |
| RevocationRuns.SetsStayWithinCaps | auth/session_mediator.go:400-446 | in every run both sets keep caps of at least one |
| RefusalSpans.RefusedUntilTheDeadline | auth/session_mediator.go:572-584 | over whole runs an id refused at some point stays refused, uncached and unused until its deadline, unless a step cuts its refusal short or evicts it |
| RefusalSpans.RefusalsSurviveExactly | auth/session_mediator.go:339-495 | one step keeps every refusal of an id from then on exactly when it neither writes the id's record with an earlier deadline nor evicts it from a full set |
| RefusalSpans.EvictionTakesASoonest | auth/session_mediator.go:400-446 | an evicted record is one no other of its set expires before, and the set is at its cap |
| RefusalSpans.PaidRetryEndsARefusalEarly | auth/session_mediator.go:489-494 | a run from the start in which a retried delete replaces a longer tombstone by the debt's deadline, with one record in the set |
| RefusalSpans.RepeatedRemovalEndsARefusalEarly | auth/session_mediator.go:357-360 | a run from the start in which a logout that failed is repeated and works, and its shorter retention replaces the debt's deadline |
| RefusalSpans.FailedDeleteIsForgotten | auth/session_mediator.go:405-410 | a run from the start in which an expired debt, not yet swept, takes the place of a failed delete, and the id is not refused |
| RevocationRuns.PaidDebtBecomesTombstone | auth/session_mediator.go:489-494 | a retried delete that works leaves a tombstone with the debt's deadline, also over a longer one |
| RevocationRuns.RevocationIsRememberedExactly | auth/session_mediator.go:339-371 | a removal is buried at once; a failed delete is owed exactly when no earlier, expired record of the id stands in its place |
| RevocationRuns.RetriesAreSpaced | auth/session_mediator.go:467-495 | in every run a delete that failed is not tried again before the retry interval is over, whoever asks for the id |
| RevocationRuns.DebtCountsFailures | auth/session_mediator.go:396-425 | as long as a debt is remembered it keeps its deadline and counts every delete of its id that fails |
| RevocationRuns.GetSessionAlone | auth/session_mediator.go:134-178 | with nothing else going on the steps of a lookup do to memory and cache what the method does |
| RevocationRuns.WriteSessionAlone | auth/session_mediator.go:181-253 | so do the steps of a create or update |
| RevocationRuns.DeleteSessionAlone | auth/session_mediator.go:339-371 | so do the steps of a delete |
| RevocationRuns.StepKeepsInv | auth/session_mediator.go:134-604 | every critical section and store answer keeps the caps, the cache free of refused ids, and what each id's own operation relies on |
| RevocationRuns.RunKeepsInv | auth/session_mediator.go:134-604 | the same over whole runs |
| RevocationMemory.EvictOldest | auth/session_mediator.go:420-433 | the loop drops what the scan finds, and nothing below the cap |
| RevocationMemory.ScanFindsSoonest | auth/session_mediator.go:420-446 | with no empty key the scan ends on an entry no other expires before |
| RevocationMemory.TombstoneKeepsCaps | auth/session_mediator.go:400-403 | remembering a tombstone keeps the cap, records the id, and says nothing new of any other |
| RevocationMemory.TombstoneDropsSoonest | auth/session_mediator.go:420-433 | the one tombstone lost is a soonest one, and only at the cap |
| RevocationMemory.PendingKeepsCaps | auth/session_mediator.go:405-417 | likewise for pending records; a record already there keeps its deadline |
| RevocationMemory.PendingDropsSoonest | auth/session_mediator.go:435-446 | the one pending record lost is a soonest one, and only at the cap |
| RevocationMemory.SweepKeepsCaps | auth/session_mediator.go:588-604 | a sweep changes no refusal from now on |
| RevocationMemory.ScanMisledExactly | auth/session_mediator.go:420-446 | some order makes the scan end on an entry that is not soonest exactly when the empty string is a key, is the only soonest, and is not alone |
| RevocationMemory.ScanIsRight | auth/session_mediator.go:420-446 | otherwise it ends on a soonest entry in every order |
| SessionMediator.DbSessionMediator.GetSession | auth/session_mediator.go:134-178 | retried delete, refusal, lookup and cache, one after the other, with every answer of the store |
| SessionMediator.DbSessionMediator.UpdateSession | auth/session_mediator.go:219-253 | written and cached exactly when the id is valid, not refused, and the store took it; noted as failed otherwise |
| SessionMediator.DbSessionMediator.CreateSession | auth/session_mediator.go:181-208 | likewise, but of an invalid id nothing is noted |
| SessionMediator.DbSessionMediator.DeleteSession | auth/session_mediator.go:339-371 | the cache forgets the id whatever the store says; a failure is owed, a removal buried |
| SessionMediator.DbSessionMediator.RetryPendingRevocation | auth/session_mediator.go:467-495 | at most one retry per interval: a paid debt becomes a tombstone of its deadline, a failed one keeps it and notes the instant |
| SessionMediator.DbSessionMediator.DropExpired | auth/session_mediator.go:505-513 | the cache loop keeps exactly the unexpired sessions, and the sets are swept |
| SessionMediator.DbSessionMediator.RetryPendingRevocations | auth/session_mediator.go:528-555 | each due debt is paid or counted up by what the store answers, only paid ids are buried, and those still owed are counted |
| SessionMediator.DbSessionMediator.ClearExpired | auth/session_mediator.go:502-523 | all passes are made whatever fails, and failure is reported exactly for a failed delete or a debt still owed |
| SessionMediator.DbSessionMediator.SweepTombstones | auth/session_mediator.go:588-604 | at most once an interval, and then the two loops leave exactly the live records |
| SessionMediator.DbSessionMediator.EvictSoonestPending | auth/session_mediator.go:435-446 | the loop drops the entry the scan finds |
| SessionMediator.DbSessionMediator.IsRevoked | auth/session_mediator.go:572-584 | an unexpired record in either set |
| SessionMediator.DbSessionMediator.RevocationPending | auth/session_mediator.go:454-460 | an unexpired debt |
| SessionMediator.DbSessionMediator.RevocationRetentionFor | auth/session_mediator.go:379-394 | the later of the session's own expiry with its margin and the default |
| MemorySessions.BuriedIsNeverStored | auth/memory_session.go:246-317 | in every run of the memory store from a new one an id with an unexpired tombstone is not stored, and the tombstones keep their cap |
| MemorySessions.RevokeBuries | auth/memory_session.go:302-317 | revoking a held id removes it and refuses it for the whole retention |
| MemorySessions.BuriedUntilTheDeadline | auth/memory_session.go:246-317 | once buried in a run from a new store, and over every further run that does not evict it, an id stays buried and out of the store until its deadline |
| MemorySessions.HeldUntilItExpires | auth/memory_session.go:246-348 | an accepted session is held, with the expiry it was last given, until it is past it: no sweep and no other id's operation takes it; a revoked one is not held until it is added again |
| MemorySessions.GoesExactly | auth/memory_session.go:200-348 | a step takes away exactly what it revokes, what it evicts at the cap and, when a sweep is due by its interval, everything that has expired |
| MemorySessions.TombstoneOutlivesExactly | auth/memory_session.go:302-317 | a tombstone ahead of its deadline outlives a step exactly when the step does not evict it, and is never shortened |
| MemorySessions.TombstoneGoesOnlyByCap | auth/memory_session.go:302-317 | the one evicted is a soonest one of a set at its cap, unless the empty string, also an id here, is the only soonest |
| MemorySessions.MemorySession.AddSession | auth/memory_session.go:246-261 | refused exactly for a buried id, with no effect; otherwise stored and swept |
| MemorySessions.MemorySession.RevokeLocked | auth/memory_session.go:302-317 | whether the id was held, and the store after it |
| MemorySessions.MemorySession.SweepLocked | auth/memory_session.go:267-275 | both sweeps, at most once an interval |
| MemorySessions.MemorySession.SweepTombstonesLocked | auth/memory_session.go:280-291 | the loop leaves exactly the tombstones still ahead of their deadline |
| MemorySessions.MemorySession.EvictExpiredLocked | auth/memory_session.go:342-348 | the loop leaves exactly the unexpired sessions |
| MemorySessions.MemorySession.ClearExpiredSessions | auth/memory_session.go:200-208 | exactly the expired sessions go at once, tombstones by their own interval |
| KeyedMutexes.AtMostOneHolder | auth/session_mediator.go:612-648 | for any goroutines and keys at most one holds a key, and all inside for it share one locked object |
| KeyedMutexes.MapIsKeysInUse | auth/session_mediator.go:612-648 | the map holds exactly the keys in use, each counting those inside, so it is empty when nobody is |
| KeyedMutexes.NobodyIsStranded | auth/session_mediator.go:623-648 | in every run a waiter can take its lock exactly when nobody holds its key; coming in, letting go and leaving wait for nobody |
| KeyedMutexes.StepKeepsInv | auth/session_mediator.go:623-648 | every enter, take, release and leave keeps the counts, the locks and the links between them |
| KeyedMutexes.KeyedMutex.Enter | auth/session_mediator.go:623-634 | the key's one object, made on demand, counts one more |
| KeyedMutexes.KeyedMutex.Leave | auth/session_mediator.go:636-648 | it counts one less, and the key is dropped at zero |
| AuthRuns.AtMostOneCarriesOn | auth/standard_auth_strategy.go:216-257 | over every interleaving of rotations, logins and logouts, at most one of those presented with a session gets a new id out of it |
| AuthRuns.LoggedOutIsNeverCarriedOn | auth/standard_auth_strategy.go:222-234 | nobody presented with a session a logout removed gets a new id, then or later, and it is stored no more |
| AuthRuns.CookieMeansStored | auth/standard_auth_strategy.go:293-378 | a cookie is written only for a session whose row has held its user and holds no other, the presented session being gone |
| AuthRuns.FailureWritesNoCookie | auth/standard_auth_strategy.go:293-378 | an agent that has not finished has given its id to nobody |
| AuthRuns.LeftAloneIsIssued | auth/standard_auth_strategy.go:216-378 | in every run an agent that does not give up, finds its presented session and does not lose its own is never turned back, and has its cookie out by its seventh step |
| AuthRuns.NobodyIsStuck | auth/standard_auth_strategy.go:216-378 | in every run an agent that has not finished can take its next step, whatever the others hold |
| AuthRuns.FailedLoginLeavesNothing | auth/standard_auth_strategy.go:311-327 | a login that failed after it began to set its user leaves no row, whatever the others did, unless its roll-back failed too |
| AuthRuns.StepKeepsInv | auth/standard_auth_strategy.go:216-378 | every step of every agent keeps who removed and who stored what |
| AuthStrategy.StandardAuthStrategy.NewSessionWithoutUser | auth/standard_auth_strategy.go:56-139 | minted and stored with its token exactly when nothing is owed and neither of the two writes fails; a row is left behind only by a failed roll-back |
| AuthStrategy.StandardAuthStrategy.CarryOver | auth/standard_auth_strategy.go:240-257 | confirmed exactly when the row is there and the last write lands; the row then holds user, activity and token; a row that is gone is not made again |
| AuthStrategy.StandardAuthStrategy.RotateWithoutCookie | auth/standard_auth_strategy.go:214-257 | a new session for a presented one exists only if this call removed its row, and carries its user, activity and token, and no more; with none presented it is anonymous; with nothing owed and the presented row stored it exists unless a call failed |
| AuthStrategy.StandardAuthStrategy.RotateSession | auth/standard_auth_strategy.go:197-212 | the same in full, and the cookie follows, last, exactly when there is a new session |
| AuthStrategy.StandardAuthStrategy.Authenticate | auth/standard_auth_strategy.go:330-365 | confirmed exactly when the row is there and the token's and the last write land; the row then holds the user, the time and the token given; a failure removes the row unless that call fails too |
| AuthStrategy.StandardAuthStrategy.Login | auth/standard_auth_strategy.go:293-378 | with nothing owed and any presented row stored, it succeeds unless some store call fails; success writes one cookie for a row that holds this user, the presented row gone; failure writes none and leaves a row only if its last call failed |
| AuthStrategy.StandardAuthStrategy.Logout | auth/standard_auth_strategy.go:414-444 | done exactly when the delete did not fail: the row is gone and the cookie expired; otherwise nothing changes |
| AuthStrategy.StandardAuthStrategy.GenerateCSRFToken | auth/csrf_service.go:26-52 | a token is handed out exactly when its write landed, and the row then holds it |
| Resolution.CycleReportedExactly | service/container.go:326-454 | in error mode, where everything reached can be made, a cycle is reported exactly when one is reached |
| Resolution.InstanceExactly | service/container.go:326-454 | in error mode on any graph, a request is answered with an instance exactly when no cycle is reached and every key reached is kept already, or bound with a resolver that does not fail |
| Resolution.AnswerIsTruthful | service/container.go:676-726 | on any graph at all: a reported path is a closed walk hanging off the request, a missing or failing key is reached and is so, and an instance means no cycle and nothing of the kind is reached |
| Resolution.ReportIsTruthful | service/container.go:711-726 | the path from the stack is a real closed walk that repeats only its end |
| Resolution.ResolveIsSound | service/container.go:326-394 | resolving keeps every kept instance clear of cycles, and an instance means nothing leads back onto the stack |
| Resolution.SkipNeverReports | service/container.go:676-693 | outside error mode no cycle is ever reported |
| Resolution.BuiltAtMostOnce | service/container.go:396-454 | over any requests, in either mode, each singleton is successfully built at most once and what is kept stays |
| Resolution.BuiltOnceExactlyWhenKept | service/container.go:396-454 | from the start the singletons built are the ones kept, each once; a failed one is neither |
| Resolution.AnswersShareExactly | service/container.go:396-475 | over any requests from the start, two answers are one instance exactly when they are for one singleton: instances of different keys, and of a key that is none, are never shared |
| Resolution.FirstErrorStops | service/container.go:492-518 | dependencies are resolved first to last, and nothing is asked for past the first error |
| Resolution.MetAgainExactly | service/container.go:676-693 | outside error mode a singleton met again has no instance yet while its arguments are resolved, and is the very one being filled while its fields are |
| Resolution.SameInstanceAlways | service/container.go:396-399 | whatever is requested in between, a singleton answers with the same instance |
| Resolution.EnteringIsProgress | service/container.go:334-335 | every key entered leaves fewer keys not yet active, which is why resolution ends on every graph |
| Containers.Container.Resolve | service/container.go:326-394 | the recursive method is the search, and leaves active keys, stack and constructing flags as it found them |
| Containers.Container.GetInstance | service/container.go:396-454 | likewise, and the goroutine never meets its own constructing flag, so it never waits for itself |
| Containers.Container.FillNew | service/container.go:431-453 | a singleton is kept before its fields are filled and dropped when they fail |
| Containers.Container.ResolveInOrder | service/container.go:492-518 | the loops of argument building and field filling stop at the first error |
| Containers.Container.CircularDependencyPath | service/container.go:711-726 | the two loops give the stack from the first occurrence, closed by the repeated key |
| Containers.Container.ResolveCircularDependency | service/container.go:676-693 | an error with the path, or what there is of the instance |
| Containers.Container.EnterDependency | service/container.go:636-642 | the key is active and on top of the stack |
| Containers.Container.LeaveDependency | service/container.go:644-650 | the top is popped and the key inactive |
| Containers.Container.Request | service/container.go:305-324 | a request begins with nothing active and ends with nothing constructing |
| Schedulers.AtMostOneRun | job/scheduler.go:177-190 | in every run a job without AllowOverlap has at most one run in progress |
| Schedulers.TicksAreConserved | job/scheduler.go:164-209 | in every run a job's dispatched ticks are its completed, skipped, panicked and outstanding ones |
| Schedulers.CountersCountEvents | job/scheduler.go:164-209 | in every run a job's counters are its runs that completed and its ticks that began while one was in progress; its ticks are these, the runs that panicked, and those under way |
| Schedulers.StopCanReturn | job/scheduler.go:124-205 | every Stop called after Start returned, and any other once the parent is cancelled, can return from any state a run leads to, by the scheduler's own steps alone |
| Schedulers.CounterIsLiveWork | job/scheduler.go:164-174 | the wait counter is the live loops and ticks; nothing is added to it at zero by a loop, and it never goes below |
| Schedulers.StopAfterStartEndsEverything | job/scheduler.go:124-133 | once a Stop issued after Start returned has returned, nothing runs and nothing ever will |
| Schedulers.StopEndsEverythingExactly | job/scheduler.go:99-133 | whenever a Stop returns, nothing runs ever after exactly when every loop had been launched |
| Schedulers.StopRacesStart | job/scheduler.go:105-118 | a run from the start in which Stop returns between the lock of Start and its first launch, and the job runs afterwards |
| Schedulers.StepKeepsInv | job/scheduler.go:66-209 | every step of registration, loops, runs and stops keeps the guards, the counts and the wait counter |
| Schedulers.Scheduler.Add | job/scheduler.go:66-91 | the first reason that applies refuses the job and changes nothing; otherwise it is appended under a new name |
| Schedulers.Scheduler.Start | job/scheduler.go:99-113 | only the first start launches, and it launches every entry |
| Schedulers.Scheduler.TryBegin | job/scheduler.go:178-186 | a tick gets past the guard or counts as skipped |
| Schedulers.Scheduler.EndRun | job/scheduler.go:187-207 | a run counts as completed unless it panicked, and the guard is lowered |
| Schedulers.Scheduler.Stats | job/scheduler.go:225-235 | the counters of the one job of that name, none when there is none |
| Schedulers.Scheduler.Jobs | job/scheduler.go:212-221 | the names in registration order |
| Shutdowns.ClosedOnceAndOnlyWhenDrained | app/app.go:381-431 | over any concurrent callers the datasources close at most once, and then no request, job or async subscriber is live or can start, ever |
| Shutdowns.ClosedExactlyWhenEveryStepFinished | app/app.go:389-431 | a finished shutdown closed the datasources exactly when every step before finished; scheduler and bus are given up on only past the deadline |
| Shutdowns.CallersAgree | app/app.go:355-379 | every caller that does not give up gets the one shutdown's result |
| Shutdowns.EveryCallerIsAnswered | app/app.go:355-379 | once it is finished everybody who called has the result, can get it at once, or gave up |
| Shutdowns.PartsRunAlone | app/app.go:381-431 | in every run the scheduler and the bus go through runs of their own machines, and the open requests are those accepted and not ended |
| Shutdowns.FinishedAsOneCall | app/app.go:389-431 | whatever goes on beside it, a finished shutdown reports and closes as a single call of it alone, each of whose steps fails exactly if it failed in the run |
| Shutdowns.EveryDrainIsBegun | app/app.go:389-421 | no failure skips a later drain: past its step the scheduler has been told to stop, and nothing is accepted any more |
| Shutdowns.GoesOnExactly | app/app.go:389-431 | in every run a shutdown under way goes on exactly when what it drains is drained, and past the deadline anyhow |
| Shutdowns.FinishedByTheEighthStep | app/app.go:357-431 | however many callers there are one shutdown is made: it takes at most eight steps and is then finished |
| Shutdowns.StepKeepsInv | app/app.go:357-474 | every step of callers, drains, requests, jobs and subscribers keeps what is drained drained |
| Shutdowns.ServerApp.Shutdown | app/app.go:357-431 | the first call reports the failed steps in order and closes exactly when there are none; a later one changes nothing |
| Shutdowns.ServerApp.Drain | app/app.go:408-421 | every drain is begun in order, and one begun late is reported and not waited for |
| Shutdowns.LateStaysLate | app/app.go:408-421 | from the first late drain on every drain is reported; no report means all finished in time |
| EventBuses.PublishReachesTheLastSubscriber | event/event_bus.go:60-162 | after any run a publish reaches the last subscriber accepted for its event with no later unsubscribe, whatever the rest of the run was, and nobody when it was unsubscribed last |
| EventBuses.CounterIsLiveHandlers | event/event_bus.go:105-162 | over every run of subscriptions, publishes and handlers the wait counter is the handlers spawned less those returned, so a wait ends exactly when none is live |
| EventBuses.EventBus.Subscribe | event/event_bus.go:62-93 | refused before anything is written, or the event's one entry replaced |
| EventBuses.EventBus.Unsubscribe | event/event_bus.go:132-137 | the event's entry is gone |
| EventBuses.EventBus.Publish | event/event_bus.go:105-162 | not found, run inline, or counted before its goroutine starts |
| EventBuses.EventBus.HandlerReturned | event/event_bus.go:147-162 | an async handler counts off however it ends |
| JsonDepth.AcceptedExactlyByNesting | http/json_parser.go:612-652 | every spelling of a JSON value is accepted exactly when it nests at most 32 deep, and the scanner then ends at depth zero outside a string |
| JsonDepth.ValueScanned | http/json_parser.go:612-652 | the same from any level inside a larger value |
| JsonDepth.TextIsSkipped | http/json_parser.go:618-635 | no bracket, escaped quote or escaped backslash inside a string counts |
| JsonDepth.CheckJSONDepth | http/json_parser.go:613-652 | the byte loop is the scan of the lemmas, and accepts a spelling of a JSON value exactly when it nests at most 32 deep |
| IdentityMemo.MemoIsTransparent | model/access_control.go:629-675 | over any sequence of session swaps, user changes, invalidations and questions, the memoised answers are the unmemoised ones |
| IdentityMemo.ResolvedOnce | model/access_control.go:629-646 | a request that keeps its principal is resolved at most once however often it asks, and exactly once from an empty slot |
| IdentityMemo.MissesExactly | model/access_control.go:629-640 | in every run a goroutine misses exactly when the slot holds nothing under its key |
| IdentityMemo.InvalidatedIsEmpty | http/context.go:89-115 | once invalidated nothing is found until somebody stores again |
| IdentityMemo.KeyIsInjective | model/access_control.go:672-674 | the key says which session and user it is of, for session ids without NUL |
| IdentityMemo.SharesKeyExactly | model/access_control.go:672-674 | another principal shares the key exactly when there is a NUL in the session id or the user id |
| IdentityMemo.RightWithoutReturn | model/access_control.go:622-646 | however goroutines interleave, a request that never returns to an earlier principal is answered rightly |
| IdentityMemo.StoredIsRightExactly | model/access_control.go:629-646 | over a run in which a goroutine misses, resolves and stores, what it stored is right for every later hit and every resolution exactly when the request carried the same principal at the miss and at the read |
| IdentityMemo.UndoneChangeAnswersAsAnother | model/access_control.go:622-646 | a publish between key and resolution, undone afterwards, answers the request as somebody else |
| IdentityMemo.MessageContext.LoadIdentity | http/context.go:89-97 | the stored identity, for its own key only |
| IdentityMemo.MessageContext.StoreIdentity | http/context.go:99-106 | the slot holds this identity under this key |
| IdentityMemo.MessageContext.InvalidateIdentity | http/context.go:108-115 | the slot is empty |
| IdentityMemo.MessageContext.SetSession | http/context.go:77-81 | the session is replaced and the memo left alone |
| IdentityMemo.MessageContext.MemoKey | model/access_control.go:651-675 | the key of the session carried now |
| IdentityMemo.MessageContext.ResolveUserContext | model/access_control.go:629-646 | run alone it answers what resolution would, and keeps the slot honest |
| AccessControl.GrantedExactly | model/access_control.go:1173-1260 | access is granted exactly to an authenticated caller, or an anonymous one where guests are allowed, at an allowed level, by a consulted rule that grants with no rule before it saying deny; roles and levels match up to case |
| AccessControl.ReadExactly | model/access_control.go:1012-1074 | a field is read exactly by such a caller whom the rule that applies allows, deny or not, and who owns the entity if the field is for owners only |
| AccessControl.FoldsExactly | model/access_control.go:784-793 | two names fold to one exactly when they differ in nothing but the case of ASCII letters |
| AccessControl.MonotoneInRoles | model/access_control.go:765-793 | more roles never lose an entity, a field, or a place on either list |
| AccessControl.DenyNeverGrants | model/access_control.go:871-888 | deny added to any rules turns no refusal of an entity or a field into a grant |
| AccessControl.TypeCheckDiffersExactly | model/access_control.go:1385-1401 | the type check and the check of a bare entity differ exactly on a deny rule that would otherwise grant |
| AccessControl.ReadRuleDepartsExactly | model/access_control.go:1023-1056 | a field's own read rule, and the domain's, depart from the shared evaluation exactly on a deny that would otherwise grant |
| AccessControl.FieldReadDepartsExactly | model/access_control.go:1012-1074 | the whole field decision departs from it exactly so, for a caller who is let in and passes the owner rule, and only ever by granting |
| AccessControl.DeniedFieldIsRead | model/access_control.go:1023-1056 | a configuration that denies reading to everybody, and a guest reads its fields all the same |
| AccessControl.GetReadableFields | model/access_control.go:1087-1126 | the loop lists exactly the fields this caller can read of this entity |
| AccessControl.GetReadableFieldsForCollection | model/access_control.go:1278-1339 | the loop lists exactly the fields whose read rule passes, which without an ownership field are those of every row without rules of its own |
| AccessControl.AllFields | model/access_control.go:1104-1115 | the configured fields in any order, the default ones when none is configured |
| AccessControl.HasAnyRoleIn | model/access_control.go:784-793 | some role of the caller is, up to case, one of those required |
| OverrideWalks.FirstOfANameIsKept | validator/validator.go:180-252 | of all visited fields that share a Go name exactly the first is kept and every later one excluded under its own path, over types that may embed themselves |
| OverrideWalks.ExcludedExactly | validator/validator.go:180-252 | of the fields a struct reaches, exactly those are excluded that a field of the same name precedes: own fields before promoted ones, and else by the order in the struct where the two routes part |
| OverrideWalks.VisitedIsReached | validator/validator.go:192-252 | exactly the fields are visited that some route of embedding fields leads to, over no type twice |
| OverrideWalks.VisitedInOrder | validator/validator.go:192-252 | the walk visits them in that order |
| OverrideWalks.ClashExactly | validator/validator.go:226-234 | the walk fails exactly when a struct on some such route has two checked fields of one wire name |
| OverrideWalks.OnlyLaterOnesAreExcluded | validator/validator.go:239-242 | nothing but a later field of a taken name is excluded |
| OverrideWalks.DottedIsInjective | validator/validator.go:254-259 | dotted paths of Go names differ when their routes do |
| OverrideWalks.DotsOnlyBetween | validator/validator.go:254-259 | a path of names neither begins nor ends with a dot |
| OverrideWalks.VisitedOnce | validator/validator.go:192-252 | no field is visited twice over one route |
| OverrideWalks.EnteringIsProgress | validator/validator.go:192-197 | every type entered leaves fewer types not on the path, which is why the walk ends |
| OverrideWalks.OverrideWalk.Walk | validator/validator.go:192-252 | the recursive method fails exactly on a wire clash in a struct it enters, and otherwise decides every visited field in order |
| OverrideWalks.OverrideWalk.WalkOwn | validator/validator.go:209-243 | the loop over a struct's own fields finds a wire clash exactly when there is one |
| OverrideWalks.OverrideWalk.WalkEmbedded | validator/validator.go:245-249 | the loop over the embedded structs, up to the first clash |
| OverrideWalks.OverriddenFields | validator/validator.go:153-178 | the excluded paths of a whole type, or a clash |

## Left out

- A nil attribute bag is an empty one, and the version is unbounded: Go's int64 would wrap after 2^63 commits.
- SetId, GetCreatedAt and the other getters; SQL text, dialects, gorm and `db/orm`: the row store is its contract, an
  UPDATE and the probe for a missing row being one step. MySQL's count of changed rather than matched rows is not modelled.
- A failing store call has no effect; one that takes effect and then reports failure is not modelled.
- SessionProtocol.StoredBagIsCommitsInOrder: over one id, minted once, as ids are fresh; setters and their write are one
  unit per object, see Findings.
- AuthRuns.CookieMeansStored: the row is written by its own agent only, so another holder of the fresh id before its cookie
  is out is not modelled.
- Token and session id generation, hashing, JWT, cookies on the wire, HTTP plumbing, logging and configuration reads:
  minted ids and tokens are fresh values the caller hands in.
- Reflection: the container sees dependency keys, the validator types, names and tags, with wire names given.
- Container resolution through named bindings and interface scanning, and by several goroutines at once. A
  pointer-to-struct the container binds on demand is a singleton of the graph. A resolver that returns nil for its instance,
  the Initiator call after filling, and the warning that skip mode can log are not modelled.
- Containers.Container.ResolveInOrder: the branch that passes over a cycle error in skip mode is absent, as
  `Resolution.SkipNeverReports` shows no such error reaches it.
- Schedulers.StepKeepsInv: ticks come at any time; intervals and the ticker's one-slot channel are not modelled.
- Shutdowns.ClosedOnceAndOnlyWhenDrained: hijacked connections, which net/http does not wait for, are not requests here. The
  scheduler's Start has returned when the server shuts down, as provider/job_provider.go:124 has it.
- AccessControl.MonotoneInRoles: case is folded for ASCII letters only. Rules of an entity's own are fixed answers.
- Inherited field roles (model/access_control.go:1456-1468): an empty intersection grants the field there.
- DB filters, pagination, the CSRF comparison, file and mail transport, templates: no member of this model.
- Real goroutine scheduling and the Go memory model: steps are atomic between locks and store calls.
