# gosamba: handle state and wire algorithms, modelled in Dafny

gosamba is an SMB2/3 file server. This project models the part of it where many
goroutines share state about open files, and the sequential algorithms around
it, and proves what the server relies on. `dafny verify dfyconfig.toml` checks
everything.

Three concurrent protocols and one queue are state machines. A step is one
region the server runs under a mutex, or one operation on a channel or an atomic;
a run is any sequence of steps, and the theorems are about every run.

- `Lifecycle` is the machine of a file handle from CREATE to its last close, over
  sessions, the durable table and the share-mode table. `LifecycleSteps` holds its
  invariant, `LifecycleRuns`, `LifecycleReservations`, `LifecycleEntries` and
  `LifecycleTrees` what follows for every run, `LifecycleGuards` exactly what a CLOSE without the lock
  may take, and `LifecycleLimits` the runs that go wrong. `Sessions`, `Durable` and
  `ShareModes` hold the tables: value functions with their laws, and a class for
  each whose methods are proved against those functions.
- `ShareWait`: CREATEs that wait out a sharing conflict.
- `RangeLocks`, `LockRequests`, `LockWait`: byte-range locks, all-or-nothing LOCK
  requests, and blocking requests on a release channel.
- `ConnWriter`: the bounded outbound queue.

The sequential algorithms are methods with loops, each proved against an
independent description: `Wildcard` and `Folding` (search patterns), `Compound`
(compounded responses), `DirRecords` and `DirListing` (QUERY_DIRECTORY),
`CreateContexts`, `Ccm` and `Cmac` (over an arbitrary block function, in
`Blocks`). `Bytes`, `Seqs`, `Sums` and `Handles` are shared vocabulary.

## What the proofs found

Six properties that a reader of the source would expect are false in general.
The code is modelled as it is; each has a run that breaks the property and a
condition under which it holds.

A CLOSE runs under the handle's lock only if the dispatcher's own lookup of the
FileID found the handle (internal/parent/dispatch.go:577-593). A FileID that comes
back by a durable reclaim can be named before it is published; that CLOSE takes
the handle without the lock. Three things can follow:

- It closes the descriptor under a READ (`UnlockedCloseHitsARead`). Descriptors in
  use stay open in every continuation exactly when nobody works with the
  descriptor at that moment (`DescriptorsSafeIff`).
- The reclaim registers the handle after it was closed, and the durable entry names
  a closed descriptor: attached, so never expired and never reclaimable
  (`EntryNamesClosedHandle`). Entries stay in order exactly when the handle's
  CREATE is not about to register it (`EntriesSafeIff`).
- A reclaim flags its handle as durable before it registers it
  (internal/parent/durable.go:589), and CLOSE removes the entry of the flagged key
  whatever handle it names (internal/parent/dispatch.go:2192-2194). A handle that
  was registered under the key in the meantime, and detached, is then nobody's and
  never closed (`UnlockedCloseLosesAHandle`). Every handle stays accounted for
  exactly when the flag is not such a one (`OwnersSafeIff`).

Each promise of the handle machine therefore assumes its own condition and no more:
`Guarded(OWNERS, ...)`, `Guarded(ENTRIES, ...)` or `Guarded(DESCRIPTORS, ...)`; what
needs none is proved for every run.

- A reclaim closes the saved descriptor before it moves the reservation, so an
  open by another client can sweep the entry in between
  (`ReclaimCanLoseItsSlot`), although internal/parent/durable.go:622-625 says that
  no other client can slip in. The replacement inherits the reservation exactly
  when no such attempt fell into the window (`ReclaimKeepsSlotIff`); outside it a
  reservation is lost only by its own handle's disposal (`ReservationKept`).
- A reclaim asks only whether its session lives, not whether its tree is still
  connected (internal/parent/durable.go:635). A TREE_DISCONNECT that comes before its
  publication leaves the handle on a tree that is gone (`ReclaimOutlivesItsTree`);
  every other handle in a session's map is on a connected tree, in every run
  (`TreesHoldTheirHandles`).
- A sweep of a dead share-mode entry wakes nobody, so a parked CREATE can sleep on
  a file that no longer refuses it (`SweepLosesWakeUp`); `WakeUpLostIff` says
  exactly when.

Three smaller limits. A blocking LOCK of several elements that added a range before
it was refused removes it again in its rollback, which closes the very channel it
took before the attempt (`RollbackSignalsIff`, `ChannelClosedIff`): it never sleeps,
and retries until its timeout. `rangesOverlap` leaves out byte 2^64-1
(`OverlapExactly`, `LastByteMissed`), which no admitted request can reach. The
length octets of CCM's associated data are the standard ones exactly below 2^32
bytes (`AadLengthExactly`).

## Model

| member | source | states |
|---|---|---|
| LifecycleRuns.OneOwner | internal/parent/session.go:248-355 | in every interleaving of CREATE, CLOSE, TREE_DISCONNECT, LOGOFF, teardown, supersede, expiry and reclaim in which no unlocked CLOSE takes a handle flagged before its registration, two owners of one handle (a session map, a goroutine, a detached entry) are the same owner |
| LifecycleRuns.ClosedExactlyOnce | internal/parent/conn.go:209-260 | in the same runs a descriptor is closed at most once, never while a session or the durable table holds the handle, and every handle that nothing holds was closed exactly once |
| LifecycleGuards.OwnersSafeIff | internal/parent/dispatch.go:2192-2194 | a CLOSE that takes a handle without its lock leaves every handle accounted for in every continuation if and only if the handle's durable flag is not one that a reclaim set before its registration |
| LifecycleRuns.EntriesNameOpenHandles | internal/parent/durable.go:302-356 | in every run in which no unlocked CLOSE takes a handle about to be registered, each durable entry names a handle whose descriptor is open |
| LifecycleGuards.EntriesSafeIff | internal/parent/durable.go:648-658 | a CLOSE that takes a handle without its lock leaves every entry naming an open handle in every continuation if and only if the handle's CREATE is not about to register it |
| LifecycleEntries.OneEntryEach | internal/parent/durable.go:302-340 | in every run whatsoever no two durable entries name one handle |
| LifecycleRuns.NoOrphanReservation | internal/parent/sharemode.go:314-386 | in the runs of OneOwner each owner in the share-mode table is a handle somebody still owns |
| LifecycleRuns.NothingLeftReserved | internal/parent/durable.go:244-268 | in the runs of OneOwner, once no session, goroutine or detached entry holds a handle, both indexes of the share-mode table are empty |
| LifecycleReservations.OpensGetAlong | internal/parent/sharemode.go:115-142 | in every run whatsoever any two entries of one file belong to different handles and do not conflict |
| LifecycleReservations.ReservationKept | internal/parent/sharemode.go:246-252 | after every run whatsoever, if sweeps spare every handle whose descriptor is open on its file, a step takes such a handle's reservation only as part of its own disposal |
| LifecycleReservations.ReclaimKeepsSlotIff | internal/parent/durable.go:563-627 | the replacement of a reclaimed handle inherits its reservation if and only if no attempt on the file that did not spare it fell between the close of the saved descriptor and the transfer |
| LifecycleReservations.WindowStep | internal/parent/sharemode.go:288-312 | in that window a step takes the reservation exactly when it is such an attempt, and nothing brings it back |
| LifecycleRuns.DescriptorOpenWhileUsed | internal/parent/dispatch.go:577-593 | in every run in which no unlocked CLOSE takes a handle in use, a READ or WRITE that resolved its handle under the lock runs on the handle it locked, with an open descriptor, and so does a CREATE still building its response |
| LifecycleGuards.DescriptorsSafeIff | internal/parent/dispatch.go:2170-2200 | a CLOSE that takes a handle without its lock leaves every descriptor in use open in every continuation if and only if no message is working with it when it does |
| LifecycleGuards.KeyFrees | internal/parent/conn.go:233-249 | whoever holds a durable key, in whatever state and with whatever messages at work, can be brought to remove or detach its entry |
| LifecycleRuns.RunKeeps | internal/parent/dispatch.go:1416-1470 | for each promise, the inductive invariant of the handle machine holds after every run that the promise allows |
| LifecycleLimits.UnlockedCloseHitsARead | internal/parent/dispatch.go:487-489 | a run in which a READ is working on a descriptor that a CLOSE without the lock has closed |
| LifecycleLimits.EntryNamesClosedHandle | internal/parent/durable.go:648-658 | a run after which a durable entry names a handle whose descriptor is closed |
| LifecycleLimits.UnlockedCloseLosesAHandle | internal/parent/durable.go:581-592 | a run after which a handle that nothing holds was never closed |
| LifecycleLimits.ReclaimCanLoseItsSlot | internal/parent/durable.go:541-658 | a run after which a reclaimed handle is published without its reservation while another handle holds a conflicting one |
| LifecycleSteps.TakeUnlockedKeeps | internal/parent/dispatch.go:2170-2200 | a CLOSE that removes the handle from the map without its lock keeps the invariant of each promise that allows it to take such a handle |
| LifecycleSteps.ReleaseShareKeeps | internal/parent/dispatch.go:831-865 | a disposal gives up exactly its own reservation |
| LifecycleSteps.RemovalTidy | internal/parent/dispatch.go:2192-2194 | where the owners are promised, removing an entry by its key removes no other handle's |
| LifecycleSteps.RegisterKeeps | internal/parent/durable.go:302-340 | registration during CREATE or reclaim keeps the invariant, whether it is refused, fresh or superseding, and settles the flag |
| LifecycleSteps.ReopenKeeps | internal/parent/durable.go:581-627 | the replacement, flagged durable from construction, takes over FileID and reservation, and the saved handle is gone |
| ShareWait.SweepLosesWakeUp | internal/parent/sharemode.go:246-252 | a run in which the holder's descriptor is closed as by a reclaim, another open sweeps its entry, and a request sleeps on a file that has no entry against it |
| ShareWait.WakeUpLostIff | internal/parent/sharemode.go:288-312 | an attempt keeps every sleeping request refused if and only if each has a conflicting entry whose owner still has its descriptor or conflicts with the reservation just made |
| Sessions.Session.AddTree | internal/parent/session.go:222-229 | the new tree's id is in use by no tree of the session, and larger than any given out before |
| Durable.RemovedForGood | internal/parent/durable.go:477-483 | a key out of the table stays out, grants no reconnect and is not held, under every sequence of events, until it is registered |
| Durable.ReconnectGrantsOnce | internal/parent/durable.go:391-434 | a granted reconnect consumes exactly its entry, and no other one for the key is granted, whatever happens, until it is registered again |
| Durable.DetachedKeepsItsGrace | internal/parent/durable.go:345-356 | from Detach on, however often the sweeper runs, a reconnect is granted exactly to the right user on the right share until the timeout has passed, and Has answers true exactly until then, and always before |
| Durable.RegisteredThenReclaimed | internal/parent/durable.go:302-434 | from the arguments of a registration, through any events that are not the owner's, its Detach and any sweeps, a reconnect is granted if and only if share and user are those registered and the timeout has not passed, and it hands over the registered handle |
| Durable.ExpiringExactly | internal/parent/durable.go:489-505 | a sweep evicts exactly the entries whose deadline has passed and releases exactly their handles |
| Durable.DurableTable.ReclaimForReconnect | internal/parent/durable.go:398-434 | hands the handle over exactly for share, user, detachment and deadline; a grant consumes that entry alone; a refusal leaves the table as it was unless the entry had expired |
| LockRequests.RollbackSignalsIff | internal/parent/lock.go:242-261 | an unlock of the rollback lowers the count, and so closes the release channel, if and only if the request had added a range |
| LockWait.ChannelClosedIff | internal/parent/lock_ranges.go:201-218 | in every run a channel taken at some step is closed at the end if and only if some step since, the request's own rollback included, removed a range |
| Compound.WalkFrame | internal/parent/conn.go:431-487 | the chain walk visits the messages of the frame up to the first whose handler drops the connection, and fails on a short, foreign or overrunning member |
| Compound.SendCompound | internal/parent/compound.go:96-134 | the buffer filled in place behind the frame header is the group's frame, and the header counts it |
| Compound.PutFrameHeader | internal/transport/nbss.go:107-121 | the header says the payload's length and leaves the payload alone; it is refused exactly when 24 bits cannot count it |
| CreateContexts.IterateEncoded | internal/smb2/create.go:164-229 | iterating an encoded list within the field widths that each entry uses yields its names and data in order |
| CreateContexts.AppendExtends | internal/parent/durable.go:740-812 | decoding, appending and encoding again is encoding the longer list |
| LifecycleSteps.ChangesKeep | internal/parent/session.go:30-129 | a step that leaves its own handles in order and everything else alone keeps the invariant |
| LifecycleSteps.LookupAgain | internal/parent/dispatch.go:1636-1706 | the handler's second lookup of a FileID finds the handle the dispatcher locked, or none |
| LifecycleSteps.PublishKeeps | internal/parent/dispatch.go:1446-1470 | publishing a handle into its session, or giving it back when the session refuses, keeps the invariant |
| LifecycleSteps.TakeOpenKeeps | internal/parent/dispatch.go:2170-2200 | a CLOSE that removes the handle from the map becomes its one owner |
| LifecycleSteps.TakeTreeKeeps | internal/parent/session.go:248-268 | TREE_DISCONNECT's sweep keeps the invariant of every promise |
| LifecycleTrees.TreeDisconnectExactly | internal/parent/session.go:248-268 | after TREE_DISCONNECT the session's map names exactly the handles of the other trees, unchanged, and every other session is as it was |
| LifecycleTrees.TreeDisconnectTakes | internal/parent/session.go:254-262 | exactly the session's handles on that tree become the sweeper's to release |
| LifecycleTrees.TreesHoldTheirHandles | internal/parent/session.go:329-341 | in every run whatsoever a handle in a session's map is on a tree the session has connected, unless a reclaim brought it back |
| LifecycleTrees.PublishedExactly | internal/parent/session.go:308-341 | a handle enters its session's map exactly when the session lives and, unless a reclaim brings it back, its tree is connected |
| LifecycleLimits.ReclaimOutlivesItsTree | internal/parent/durable.go:628-647 | a run after which a reclaimed handle is in its session's map while its tree is not connected |
| LifecycleTrees.ReservedUnderItsFile | internal/parent/dispatch.go:1416-1421 | in every run whatsoever a reservation stands under the file of its handle, unless the handle inherited it |
| LifecycleTrees.RegistrationRecords | internal/parent/durable.go:302-340 | a registration in the handle machine is refused exactly when another live handle has the key, and otherwise records handle, timeout, share and user as given |
| LifecycleTrees.ReclaimTakesExactly | internal/parent/durable.go:398-434 | a reclaim in the handle machine takes the saved handle exactly for share, user, detachment and deadline, evicts an expired one, and else changes nothing |
| LifecycleTrees.DetachedEntryLeaves | internal/parent/durable.go:489-505 | in every state a detached entry changes only after its deadline, for its user on its share, by a registration of its key or by a removal of its key |
| LifecycleTrees.AttachedEntryLeaves | internal/parent/durable.go:345-356 | in every state an attached entry changes only by its owner's Detach, which starts the deadline, by its own handle's registration or by a removal of its key |
| LifecycleTrees.ProbeVerdict | internal/parent/conn.go:244-249 | teardown leaves a handle to the durable table exactly when it is flagged and an unexpired entry of its key is there |
| LifecycleSteps.TakeAllKeeps | internal/parent/sessionindex.go:129-147 | LOGOFF's, teardown's and a superseding reconnect's sweep keeps the invariant |
| LifecycleSteps.ProbeKeeps | internal/parent/conn.go:244-249 | a durable handle that reaches teardown always has its entry, so it is detached and not closed, whatever the clock says |
| LifecycleSteps.DetachKeeps | internal/parent/durable.go:345-356 | detaching hands the handle from the goroutine to its entry |
| LifecycleSteps.EvictKeeps | internal/parent/durable.go:489-505 | expiry, eviction and a superseding registration release a detached handle and its entry together |
| LifecycleSteps.ReclaimKeeps | internal/parent/durable.go:391-434 | a granted reconnect becomes the owner of the saved handle |
| ShareModes.ConflictSymmetric | internal/parent/sharemode.go:115-142 | the sharing check does not depend on who came first |
| ShareModes.SharingRules | internal/parent/sharemode.go:63-142 | opens for attributes alone never clash, sharing everything never clashes, and denying everything clashes with every open that reads, writes or deletes |
| ShareModes.SharingExactly | internal/parent/sharemode.go:100-142 | for all access and share masks, two opens clash if and only if neither is for attributes alone and one side's read, write or delete bits meet the other side's missing share bit of that kind |
| ShareModes.AcquireOutcome | internal/parent/sharemode.go:288-312 | an open is admitted exactly when no live entry conflicts; the file's entries are then its live ones and, if admitted, the new one with its mode; every other file is as it was; both indexes agree |
| ShareModes.ReleaseValid | internal/parent/sharemode.go:316-339 | a release removes exactly that owner's entry, from both indexes, and keeps them in order |
| ShareModes.TransferValid | internal/parent/sharemode.go:347-367 | a transfer to a fresh handle keeps the slot's place and mode and changes one owner |
| ShareModes.NoOwnersNoEntries | internal/parent/sharemode.go:371-377 | a table without owners has no entries and no empty slots |
| ShareModes.ShareModeTable.Check | internal/parent/sharemode.go:267-278 | answers whether any live entry of the file conflicts, and reserves nothing |
| ShareModes.ShareModeTable.AcquireLocked | internal/parent/sharemode.go:288-312 | sweep, test and insert compute the table's Acquire function |
| ShareModes.ShareModeTable.Drop | internal/parent/sharemode.go:316-339 | release computes the Release function and wakes exactly the waiters of that file |
| ShareModes.ShareModeTable.Move | internal/parent/sharemode.go:347-367 | transfer, which renames the first entry it finds, computes the Transfer function |
| ShareModes.ShareModeTable.AcquireOrWait | internal/parent/sharemode.go:392-405 | a refusal registers one fresh waiter in the same region as the test |
| ShareModes.ShareModeTable.StopWaiting | internal/parent/sharemode.go:410-428 | removes one waiter and the list with the last one |
| ShareModes.ShareModeTable.WakeLocked | internal/parent/sharemode.go:432-441 | wakes every waiter of the file and forgets them |
| ShareWait.NoLostWakeUp | internal/parent/sharewait.go:82-120 | in every run without a sweep, a request whose waiter has not been woken is registered and its file still holds an entry that conflicts with it |
| ShareWait.WaitersAreWaiting | internal/parent/sharemode.go:388-441 | in every run each registered waiter belongs to exactly one request, which has not returned and was not woken |
| ShareWait.SlotsAreCounted | internal/parent/sharewait.go:58-73 | in every run a connection's counter is the number of its requests that hold a slot or are backing out of the cap, and at most four hold one |
| ShareWait.ParksExactlyBelowTheCap | internal/parent/sharewait.go:58-67 | a refused request parks if and only if fewer than four requests of its connection are counted |
| ShareWait.AttemptVerdict | internal/parent/sharewait.go:82-119 | after every run an attempt gets its reservation if and only if no entry whose owner has its descriptor conflicts, and its next stage follows |
| ShareWait.GrantedHadReservation | internal/parent/sharewait.go:82-127 | in every run a request is answered as granted only if its handle had the reservation |
| ShareWait.NothingLeftWaiting | internal/parent/sharewait.go:82-127 | when every request has returned no slot is taken and no file has a waiter |
| ShareWait.RunKeeps | internal/parent/sharewait.go:82-127 | table, waiters and counters agree after every run, and every sleeper is refused after every run without a sweep |
| Sessions.Session.AddOpen | internal/parent/session.go:308-318 | publishes a handle exactly when the session is not dead |
| Sessions.Session.AddOpenToTree | internal/parent/session.go:329-341 | publishes a handle exactly when the session is not dead and the tree is still connected |
| Sessions.Session.RemoveOpen | internal/parent/session.go:349-355 | hands the handle to the caller and takes it out of the map |
| Sessions.Session.RemoveTreeAndOpens | internal/parent/session.go:248-268 | takes out exactly the handles whose tree it is, in one region, and leaves every other handle and tree where it was |
| Sessions.Session.TakeAllOpens | internal/parent/session.go:274-286 | takes out every handle and latches the session dead |
| Durable.AttachedStays | internal/parent/durable.go:302-356 | from Register until the owner's own event, no sequence of expiries at any clock value, reconnects and competing registrations changes an attached entry |
| Durable.ReleasedWasDetached | internal/parent/durable.go:489-505 | every handle an event releases was detached, and its entry no longer names it |
| Durable.DurableTable.Register | internal/parent/durable.go:302-340 | succeeds exactly with a positive timeout and no other live handle under the key, records its arguments, releases exactly a superseded detached handle, and touches no other key |
| Durable.DurableTable.Detach | internal/parent/durable.go:345-356 | starts the deadline of an attached entry, once |
| Durable.DurableTable.Expire | internal/parent/durable.go:489-505 | evicts exactly the expired entries, in any order, and counts them |
| RangeLocks.RangeEndSaturates | internal/parent/lock_ranges.go:62-68 | the wrapping sum with its test is the exact sum, cut at 2^64-1 |
| RangeLocks.OverlapSharesByte | internal/parent/lock_ranges.go:72-77 | for every start a request may carry, overlapping is sharing a byte over the unbounded integers |
| RangeLocks.OverlapExactly | internal/parent/lock_ranges.go:72-77 | for all 64-bit ranges, overlapping is sharing a byte below 2^64-1 |
| RangeLocks.LastByteMissed | internal/parent/lock.go:195-197 | without the bound on starts two locks of the last byte would both be granted |
| RangeLocks.ReachValid | internal/parent/lock_ranges.go:226-301 | in every reachable table each list is without duplicates, zero lengths or conflicts between handles, and within both caps |
| RangeLocks.NoConflictingLocks | internal/parent/lock_ranges.go:226-284 | in every reachable table two handles hold one byte only with both locks shared |
| RangeLocks.DropValid | internal/parent/lock_ranges.go:238-252 | removing ranges keeps the table in order, touches one file, and keeps the count only when nothing was removed |
| RangeLocks.LockValid | internal/parent/lock_ranges.go:253-280 | a lock adds exactly its range when granted and nothing otherwise, and the count follows |
| RangeLocks.LockVerdict | internal/parent/lock_ranges.go:253-280 | a range not yet held meets a conflict if and only if another handle's range covers one of its bytes with either exclusive, and the limit if and only if there is no conflict and the file has 4096 ranges or the handle 1024 |
| RangeLocks.BlocksExactly | internal/parent/lock_ranges.go:268-273 | for the starts a request may carry the shared byte is any byte at all |
| RangeLocks.UnlockExactly | internal/parent/lock_ranges.go:238-252 | an unlock removes exactly the handle's ranges of that start and length, shared or exclusive |
| RangeLocks.ReleaseExactly | internal/parent/lock_ranges.go:287-301 | a release removes exactly the handle's ranges on the file |
| RangeLocks.TotalZero | internal/parent/lock_ranges.go:157-161 | the count is zero exactly when nothing is locked anywhere |
| RangeLocks.LockTable.ApplyUnlock | internal/parent/lock_ranges.go:238-252 | in-place compaction removes the handle's matching ranges and adjusts the count |
| RangeLocks.LockTable.ApplyLock | internal/parent/lock_ranges.go:253-280 | one scan decides between held, conflict, cap and append |
| RangeLocks.LockTable.ApplyRange | internal/parent/lock_ranges.go:131-138 | applies, republishes the count and closes the channel when ranges disappeared |
| RangeLocks.LockTable.RemoveOwner | internal/parent/lock_ranges.go:287-301 | drops every range of the handle on the file |
| RangeLocks.LockTable.Release | internal/parent/lock_ranges.go:140-146 | the same under the mutex, with the signal |
| RangeLocks.LockTable.Publish | internal/parent/lock_ranges.go:212-218 | the published count is the count; the channel is closed exactly when it fell |
| RangeLocks.LockTable.ConflictsWith | internal/parent/lock_ranges.go:148-155 | an I/O is stopped if and only if another handle's range covers one of its bytes and is exclusive or the I/O writes, and the empty fast path agrees |
| RangeLocks.LockTable.Snapshot | internal/parent/lock_ranges.go:165-175 | the handle's ranges on the file, in order |
| RangeLocks.LockTable.ReleaseSignal | internal/parent/lock_ranges.go:201-208 | the current open channel, made when there is none |
| LockRequests.DecodeLockOps | internal/parent/lock.go:174-199 | refuses a request exactly when an element has no known flag or an offset past 2^63-1; otherwise classifies every element in order |
| LockRequests.RequestAllOrNothing | internal/parent/lock.go:223-239 | a request that fails at any element leaves the file's ranges the same multiset, every other handle's ranges and every other file as they were, and the count unchanged |
| LockRequests.RestoringUndoes | internal/parent/lock.go:242-261 | whatever the request did to the handle's ranges, every re-lock is granted and the same ranges are back |
| LockRequests.RelockGranted | internal/parent/lock.go:255-260 | a range the handle held before is refused neither by conflict nor by a cap |
| LockRequests.RequestGrants | internal/parent/lock.go:223-239 | after a request that succeeds, the last element that names a range decides whether it is held, and unnamed ranges are as before |
| LockRequests.FailsAtFirst | internal/parent/lock.go:231-237 | the failure a request reports is its first: every element before it was granted |
| LockRequests.RangesDiff | internal/parent/lock_ranges.go:305-321 | the entries of the first list with no counterpart in the second |
| LockRequests.RestoreLocks | internal/parent/lock.go:242-261 | the two loops compute Restoring |
| LockRequests.ApplyLockOps | internal/parent/lock.go:223-239 | the loop with its snapshot and early return computes Request |
| LockWait.StillRefused | internal/parent/lock.go:303-353 | in every interleaving, while a parked request's channel is open the range that refused it is still held and still forbids it |
| LockWait.AttemptVerdict | internal/parent/lock.go:326-336 | after an element the request goes on if granted, waits if it met a conflict and is neither an unlock nor told to fail at once, and ends otherwise |
| LockWait.RunKeeps | internal/parent/lock_ranges.go:201-218 | after every run each subscribed request holds the current channel or a closed one |
| LockWait.AfterIsLoud | internal/parent/lock_ranges.go:212-218 | an operation that does not lower the count removes no range of any file |
| Wildcard.DecodeRune | internal/parent/wildcard.go:175-181 | a non-ASCII character takes one to four bytes and is never a metacharacter; an invalid byte stands for itself alone |
| Wildcard.RunesEncode | internal/parent/wildcard.go:165-181 | encoding the decoded characters as UTF-8, with invalid bytes for themselves, gives back every byte string |
| Wildcard.RunesInjective | internal/parent/wildcard.go:165-181 | two names with the same characters are the same bytes |
| Wildcard.MatchPattern | internal/parent/wildcard.go:103-164 | accepts exactly the names the pattern stands for under the declarative star and question-mark relation, for every fold relation, in at most (name+1)(pattern+1) turns |
| Wildcard.LatestStarSuffices | internal/parent/wildcard.go:94-98 | any match an earlier star could still reach, the latest star reaches too |
| Wildcard.StretchTakes | internal/parent/wildcard.go:133-142 | a star-free stretch takes exactly its length of the name |
| Wildcard.NothingLeftToSwallow | internal/parent/wildcard.go:156-163 | at the end of the name no earlier start of the stretch can match |
| Folding.FoldEqual | internal/parent/wildcard.go:200-227 | walking the orbit decides membership in it |
| Folding.FoldRune | internal/vfs/norm.go:177-188 | the least member of the orbit |
| Folding.FoldsAgree | internal/parent/wildcard.go:188-192 | the matcher's and the resolver's folding are one equivalence |
| Compound.WalkRecovers | internal/parent/compound.go:96-134 | walking a frame by NextCommand gives back its members in order, each aligned with fewer than eight zero bytes of padding, the last bare, bodies unchanged |
| Compound.SignatureVerifies | internal/parent/compound.go:160-165 | the signature a member carries is the MAC of that member with its signature cleared |
| Compound.MemberKeeps | internal/parent/compound.go:138-144 | linking, padding and signing change only the flags byte, the link at offset 20 and the signature |
| Compound.SetSignedBits | internal/smb3/sign.go:27-27 | signing sets the flag 0x08 and keeps the other seven |
| Compound.SignAt | internal/parent/compound.go:160-165 | signing inside the buffer changes that member alone |
| Compound.Flush | internal/parent/compound.go:59-78 | the groups put together are the responses in order; each shares session and encryption; neighbours do not |
| DirRecords.Utf16Name | internal/parent/dispatch.go:3597-3610 | the loop computes the UTF-16 bytes of the name |
| DirRecords.NameReadBack | internal/parent/dispatch.go:3597-3610 | a UTF-16LE reader that joins surrogate pairs gets back every name of Unicode scalar values |
| DirRecords.LayoutsAddUp | internal/parent/dispatch.go:2924-2940 | for each class the fixed size is the sum of the widths of its fields, and FileNameLength stands behind the fields before it |
| DirRecords.Utf16Len | internal/parent/dispatch.go:3616-3626 | the length computed without encoding is the length of the encoding |
| DirRecords.PieceHas | internal/parent/dispatch.go:2972-2975 | a client that reads the name length and decodes the UTF-16 behind the fixed part finds exactly the entry's name, padded and linked or not |
| DirRecords.FollowVisits | internal/parent/dispatch.go:2888-2897 | following NextEntryOffset visits exactly the records of the buffer in order |
| DirRecords.ChainExtends | internal/parent/dispatch.go:2888-2897 | linking the previous record by its remembered start and appending the next extends the chain |
| DirListing.EncodeEntries | internal/parent/dispatch.go:2771-2901 | one call packs exactly the statable entries it moves over, within its limit and buffer, and stops only at the end, at the limit or before a record that does not fit |
| DirListing.DirHandle.Query | internal/parent/dispatch.go:2472-2523 | the status, the buffer and the new cursor of a call |
| DirListing.RepliesListEntries | internal/parent/dispatch.go:2500-2507 | over any run of calls, with any buffers, classes and stat outcomes, the names a client decodes from the replies are the matched entries in order up to the cursor, minus exactly those whose stat failed when their turn came |
| DirListing.CompleteListing | internal/parent/dispatch.go:2500-2507 | at the end of a listing in which no stat failed the client has every entry once |
| DirListing.AnswerNames | internal/parent/dispatch.go:2490-2523 | the names read out of a reply are those of the entries it moved over, and the buffer fits |
| CreateContexts.WidthsNeeded | internal/smb2/create.go:170-174 | a name or data longer than its length field can say never comes back |
| CreateContexts.Encode | internal/smb2/create.go:193-229 | the loop with its back-patched offsets computes the encoding, every field cut to its width |
| CreateContexts.AppendEntry | internal/smb2/create.go:198-227 | one turn of that loop appends one entry |
| CreateContexts.Iterate | internal/smb2/create.go:164-190 | ends on every byte string and visits the contexts until the callback stops it |
| Ccm.UnsealExactly | internal/smb3/ccm.go:46-66 | for any block function, bytes open to a text if and only if they are that text sealed |
| Ccm.UnsealSealed | internal/smb3/ccm.go:33-66 | opening what was sealed returns the text |
| Ccm.MacIsStandard | internal/smb3/ccm.go:80-139 | within the 4-byte length fields the tag is one CBC-MAC over the blocks of appendix A.2 of NIST SP 800-38C |
| Ccm.FormattedInjective | internal/smb3/ccm.go:80-139 | two messages with the same formatted blocks have the same nonce, associated data and text |
| Ccm.FirstBlockSays | internal/smb3/ccm.go:81-96 | the first block is the flags 0x7B or 0x3B, the nonce and the length as a big-endian number |
| Ccm.CountersDiffer | internal/smb3/ccm.go:143-174 | below 2^32 no two counter blocks are the same, and none is a first block of a MAC |
| Ccm.SealedText | internal/smb3/ccm.go:143-161 | byte i of the text is under byte i mod 16 of the block of counter i / 16 + 1 |
| Ccm.SealedTag | internal/smb3/ccm.go:164-174 | the tag is under the block of counter zero |
| Ccm.AadLengthExactly | internal/smb3/ccm.go:102-112 | the code's length octets are the standard's exactly below 2^32 |
| Ccm.ComputeTag | internal/smb3/ccm.go:80-139 | the three loops, in place, compute one CBC-MAC over first block, associated data and text |
| Ccm.CtrXor | internal/smb3/ccm.go:143-161 | the block loop xors the text with the key stream from counter one |
| Ccm.EncryptTag | internal/smb3/ccm.go:164-174 | the tag under the block of counter zero |
| Ccm.CtEq | internal/smb3/ccm.go:68-77 | the accumulated difference is zero exactly for equal strings |
| Ccm.SealMessage | internal/smb3/ccm.go:33-44 | computes Seal |
| Ccm.OpenMessage | internal/smb3/ccm.go:46-66 | computes Unseal, rejecting a bad nonce, a short message and a wrong tag |
| Blocks.ChainedInPieces | internal/smb3/cmac.go:51-55 | chaining a message in pieces, carrying the chaining value, is chaining it in one go |
| Cmac.ComputeCmac | internal/smb3/cmac.go:19-74 | for every block function and message length, the chunked form is the one-pass tag of section 2.4 of RFC 4493 |
| Cmac.ChainPrefix | internal/smb3/cmac.go:41-68 | the loop over one reused scratch buffer ends with the CBC chaining value of the whole prefix |
| Cmac.CmacSubkeys | internal/smb3/cmac.go:76-89 | the two subkeys of section 2.3 of RFC 4493 |
| Cmac.LeftShift | internal/smb3/cmac.go:91-103 | the 128-bit number doubles modulo 2^128 |
| Cmac.ShiftedDoubles | internal/smb3/cmac.go:91-103 | shifting bytes with a carried bit doubles the number they spell |
| ConnWriter.HandedInOrder | internal/parent/writer.go:150-198 | in every interleaving of producers, writer and shutdown, the frames handed to the socket are a prefix of enqueue order without repetition |
| ConnWriter.CounterExact | internal/parent/writer.go:104-132 | in every run the counter is queued bytes plus reservations under way plus the dequeue not yet subtracted, and accepted bytes and queue length stay within their bounds |
| ConnWriter.NothingLeaks | internal/parent/writer.go:165-181 | at rest the counter is the bytes in the queue, and every frame whose send succeeded was handed over or is still queued |
| ConnWriter.StopsDrained | internal/parent/writer.go:150-181 | in every run the writer stops only once the connection is closed, and unless the backlog is discarded it has by then handed over every frame that was enqueued |
| ConnWriter.SendVerdict | internal/parent/writer.go:104-120 | a send is taken up exactly while the connection is open and accepted exactly when the counter stays within 64 MiB |
| ConnWriter.RunKeeps | internal/parent/writer.go:104-198 | order, uniqueness and byte accounting hold after every run |

## Left out

- Handles without a descriptor: directories, streams and pipes hold no reservation and take another path through teardown, so the handle machine covers file handles only.
- Batches of handles: a goroutine that took several handles out of a session releases them one after the other; in the machine each proceeds on its own, which allows more orders than the server has.
- Messages that miss the dispatch lookup: a CLOSE that then finds a handle is modelled; a READ or WRITE that does runs without the lock and is outside the descriptor promise.
- A parked LOCK's retry under the shared handle lock, resume keys and notify registrations are not part of the handle machine.
- Data races: the unlocked CLOSE and the CREATE read and write the handle's flag without a common lock; each access is one step.
- Time: deadlines and timers are steps that may happen at any moment, and expiry takes a clock value; no bound on waiting is stated.
- Identities: minted FileIDs are taken to be fresh, a handle's file identity to be readable once, and all connections to share one positive durable timeout.
- Share-mode liveness: in the handle machine the live entries are a parameter of each attempt; in the waiting machine they are those whose descriptor no step has closed.
- LifecycleGuards.OwnersSafeIff: after runs in which the entries were kept in order; a stale entry under the same key would shield the key.
- DurableTable.Reclaim: not on the reconnect path. Remove and Has are modelled; what they mean is in the lemmas named above.
- LockRequests.RequestAllOrNothing: covers a request with no other handle's step between its elements, because a rollback is several table operations and the code does not hold the table over them.
- Linux OFD locks: the in-process table is the authority, as on darwin.
- CreateContexts.IterateEncoded: within the field widths only; past them the truncated offset may still point at bytes that happen to equal the data, so only too long names and data are shown to be lost (`WidthsNeeded`).
- Wildcard.MatchPattern: the fold relation is a parameter, and DOS_STAR, DOS_QM and DOS_DOT are literals, as in the code.
- Folding.FoldEqual: Unicode's simple-fold table is any function whose orbits are cycles of at most four and fold ASCII letters only.
- DirListing.EncodeEntries: the times, sizes and attributes in a record are opaque bytes, and the second fit check is omitted because the price is proved to be the record's size.
- The enumeration and pattern filter of the first QUERY_DIRECTORY call, and restarted scans.
- Compound.SendCompound: the encryption of a whole frame is not modelled; members of an encrypted frame are the unsigned case.
- Cmac.ComputeCmac: the library's CBC encrypter is a class with the behaviour its documentation gives.
- SessionIndex and maySupersede: bookkeeping on one map; a supersede appears in the handle machine as taking all handles of a session.
- connPool, the file system, authentication, encryption transforms, GCM, change notification, copy-chunk, fixed-layout encoders and configuration.
