# FLoM lock manager: a verified model

FLoM is a lock manager: clients connect to a daemon, ask for a named resource
and wait, in a queue, until it can be granted. The main thread of the daemon
hands each client over to a thread of the resource, a locker. This project
models the parts where the logic is: the lock state machines of the
hierarchical, numeric and sequence resources, the handoff of connections
between threads and the termination of a locker, the incubator of clients that
wait for somebody else to create a resource, the client's side of a lock call,
and the messages of the protocol.

`dafny verify dfyconfig.toml` checks everything.

## The files

| file | what it holds |
|---|---|
| `Answers`, `Records`, `Words` | return codes, connection records and multiset facts, 32-bit integers |
| `HierTree`, `HierResource`, `HierLifecycle` | the name tree as a value and its flat view; the resource as a state machine over whole runs; what happens to one lock from grant to release |
| `HierObjects` | the same resource as linked elements changed in place, every method tied to the value-level functions |
| `NumericPool`, `NumericAccounts`, `NumericResource` | the counted pool with first-fit wakeup, as a state machine; exactly which messages keep its accounts; the same as fields updated in place |
| `SequenceValues`, `SequenceFairness`, `SequenceResource` | the sequence with its rolled back queue: which values, who gets them, and the fields updated in place |
| `Handoff` | main thread and lockers as interleaved steps; the order of the shared reads and writes is a parameter |
| `Connections`, `MainThread`, `Clients`, `MainThreadObjects` | the connection array with removal by swapping, the transfer of a client and the incubator, the count of all clients, the arrays changed in place |
| `Listing`, `Departure`, `Agreement`, `Client` | what a resource lists about a connection, how many records of it come and go, one lock call in any interleaving with other clients, the client's loop |
| `Decimal`, `Messages`, `MessageText`, `Markup`, `MessageObjects` | decimal numbers, elements and parser handlers as functions, the printed text, its reading into elements, the bounded buffer and the overwritten fields |

For each resource the imperative class is proved equal, method by method, to
functions on values; the properties of runs are proved about those functions.
The handoff is a transition system whose runs are arbitrary sequences of
choices; a step that is not possible leaves the state as it is.

## Main results

* Hierarchical: `HierTree.CompatibleMeans`, `HierTree.CanLockExact`, `HierResource.NoLostWakeup`,
  `HierResource.AllRunsSafeExactly`, `HierTree.GcKeepsLive`,
  `HierTree.NormalIsFixed`, `HierLifecycle.LockUnlockRoundTrip`,
  `HierLifecycle.CollectedAfterCreation`, and the classes of `HierObjects`.
* Numeric: `NumericAccounts.AllRunsAccountedExactly`,
  `NumericPool.ServeIsFirstFit`, `NumericPool.ImpossibleIsForEver`.
* Sequence: `SequenceValues.NoRepeatUntilWrap`, `SequenceValues.Partition`,
  `SequenceValues.OldestRolledBackFirst`, `SequenceFairness.RunIsFair`,
  `SequenceFairness.FewGaps`.
* Handoff: `Handoff.SafeOrders`, `Handoff.ExactlyOnce`, `Handoff.Delivers`,
  `Handoff.FairTermination`.
* Main thread: `MainThread.RunsAreConsistent`, `MainThread.OneActiveAlways`,
  `MainThread.ManagesMeans`, `MainThread.DrainMoves`, `Clients.InOnePlace`.
* Client and daemon: `Departure.RecordsConserved`, `Departure.GoneForGood`,
  `Agreement.AgreementExactly`, `Client.CallMeansWhatItSays`.
* Messages: `Messages.RoundTrip`, `Messages.AnswerArrives`, `Markup.TextReadsBackExactly`,
  `MessageObjects.Transmit`.

The other rows below are what these rest on, or say the same of one call.

## Results that are not what the code might lead one to expect

* A lock message on a hierarchical resource is not compared with the root name,
  so a second lock on the same connection with another first level is inserted
  below the root without having been checked against it
  (`HierResource.ForeignLockIsUnsafe`). Safety holds exactly for paths that are
  empty or start with the root name (`HierResource.LockSafeIffLocal`), and the
  main thread hands over only such clients (`MainThread.HandedLocksAreLocal`).
  Of all runs, local or not, the safe ones are those without a clashing foreign
  lock (`HierResource.AllRunsSafeExactly`).
* A client in the incubator may ask again; if it does so with an invalid name
  whose first level has a locker, it goes on waiting under that name for a
  resource that exists (`MainThread.ForgottenClient`). This is the only way in
  which a client is forgotten (`MainThread.RunsAreConsistent`).
* A management message without an action counts the length of its session
  twice and leaves a hole in its text (`MessageText.ReadableExactly`,
  `Markup.HoleExample`).
* A disconnection looks for the lock only along the current name of the
  resource, which is that of the creator or of the last unlock
  (`HierLifecycle.DisconnectCanLeak`). It removes one record: the exact
  condition for a client with any number of locks and waiting requests is
  `HierLifecycle.DisconnectReleasesAllExactly`, for a client that waits for
  nothing `HierLifecycle.DisconnectReleasesIdleExactly`, and if it has just one
  lock `HierLifecycle.DisconnectReleasesExactly`.
* The refusal of an incubated request for more than the total of a numeric
  resource arrives at step 24, where the client's loop takes any code but
  "enqueued" for success (`Agreement.AgreementExactly`).
* The handoff needs two of the three orderings the code keeps: importing a
  connection before or after publishing its sequence number makes no
  difference (`Handoff.SafeOrders`).
* A request of a negative quantity is granted by a numeric resource. Whether it
  breaks the accounts, and whether a later release does, depends on the state
  (`NumericAccounts.RequestKeepsExactly`, `NumericAccounts.ReleaseKeepsExactly`,
  `NumericAccounts.NegativeRequestCanPass`); without such requests they hold in
  every run, and of all runs `NumericAccounts.AllRunsAccountedExactly` says
  which keep them.
* The values of a sequence are unique only until its counter wraps
  (`SequenceValues.NoRepeatUntilWrap`, `SequenceValues.RepeatsAfterWrap`).

## Model

| member | source | states |
|---|---|---|
| `HierTree.CompatibleSymmetric` | src/flom_resource_hier.c:55-62 | the compatibility table does not depend on which of two modes came first |
| `HierTree.CompatibleMeans` | src/flom_resource_hier.c:55-62 | two modes are compatible exactly when neither does more than the other lets it: NL does nothing, CR and PR read, CW, PW and EX write; EX lets others do nothing, PR and PW let them read, NL, CR and CW let them write |
| `HierTree.CanLockExact` | src/flom_resource_hier.c:52-106 | the pruned recursion answers true exactly when every (path, mode, connection) entry on an ancestor-or-descendant path is compatible, for every tree, mode and path |
| `HierTree.CanLockExactBelow` | src/flom_resource_hier.c:52-106 | the same for every subtree hanging below any path |
| `HierTree.AddLockerFlat` | src/flom_resource_hier.c:110-214 | insertion adds exactly one entry to the flat multiset and moves no other |
| `HierTree.AddEntries` | src/flom_resource_hier.c:110-214 | below a matching node the new entry is at the asked path |
| `HierTree.AddDistinct` | src/flom_resource_hier.c:110-214 | insertion of a path along the root name keeps sibling names distinct |
| `HierTree.AddLockerDistinctExactly` | src/flom_resource_hier.c:110-214 | insertion of any path keeps them distinct exactly when the path is along the root name or no child of the root has its first level |
| `HierTree.GcEntries` | src/flom_resource_hier.c:550-584 | collection keeps the flat multiset of entries |
| `HierTree.GcKeepsLive` | src/flom_resource_hier.c:550-584 | the children left are exactly those with a holder below them, in their old order, each collected; a node ends empty exactly when nothing below it is held |
| `HierTree.GcNormal` | src/flom_resource_hier.c:550-584 | after collection no node but the root is without a holder below it |
| `HierTree.NormalIsFixed` | src/flom_resource_hier.c:550-584 | a tree is a fixed point of collection exactly when it is in that normal form |
| `HierTree.LiveFlat` | src/flom_resource_hier.c:550-584 | a subtree is worth keeping exactly when its flat view is not empty |
| `HierResource.LockMeans` | src/flom_resource_hier.c:355-459 | the answer is decided by the flat view alone: granted with exactly one new entry, or no change but, for a client that waits, one more at the end of the queue |
| `HierResource.ServeFlat` | src/flom_resource_hier.c:888-1002 | a queue pass adds the entries of the waiters it grants and nothing else |
| `HierResource.ServePartition` | src/flom_resource_hier.c:888-1002 | every waiter is granted or left, exactly once |
| `HierResource.ServeLast` | src/flom_resource_hier.c:888-1002 | the last waiter is judged against the tree that all earlier ones left, and granted or kept behind them |
| `HierResource.ServeKeepsOrder` | src/flom_resource_hier.c:888-1002 | those granted and those left keep the order of the queue |
| `HierResource.CleanQueue` | src/flom_resource_hier.c:663-701 | a clean-up keeps the order of the queue; if the connection has no lock where the walk ends, its first request leaves the queue, its others and those of everybody else stay in order, and nobody is granted |
| `HierResource.ServeFixpoint` | src/flom_resource_hier.c:888-1002 | after one left-to-right pass no waiter left behind could be granted |
| `HierResource.CanLockAntitone` | src/flom_resource_hier.c:52-106 | more holders never make a refused request grantable |
| `HierResource.BlockedMeans` | src/flom_resource_hier.c:52-106 | the queue holds nobody the check would grant exactly when every waiter conflicts with a holder on a related path |
| `HierResource.GcKeepsVerdicts` | src/flom_resource_hier.c:550-584 | collection changes no verdict on the queue |
| `HierResource.StepKeepsBlocked` | src/flom_resource_hier.c:322-546 | no message and no clean-up leaves a grantable waiter in the queue |
| `HierResource.RunKeepsBlocked` | src/flom_resource_hier.c:588-750 | the same for every run of messages and disconnections |
| `HierResource.NoLostWakeup` | src/flom_resource_hier.c:888-1002 | from creation on, in every run every waiter conflicts with a holder on a related path, and no holders means an empty queue |
| `HierResource.HolderGone` | src/flom_resource_hier.c:611-650 | taking a holder out removes its one entry, at the path the walk reached |
| `HierResource.CleanFlat` | src/flom_resource_hier.c:588-750 | a clean-up removes at most one entry, one of the connection itself, and gives entries only to the waiters it grants |
| `HierResource.GrantKeepsSafe` | src/flom_resource_hier.c:355-411 | a grant decided by the check keeps all pairs of related holders compatible, if the path starts with the root name |
| `HierResource.StepKeepsSafe` | src/flom_resource_hier.c:322-546 | every message keeps that safety, grants from the queue included, if the path of a lock message is empty or starts with the root name |
| `HierResource.StepSafeExactly` | src/flom_resource_hier.c:322-546 | any message whatever keeps that safety exactly when it is not a lock message of another first level that clashes with a holder on a path related to the place where it is inserted |
| `HierResource.RunKeepsSafe` | src/flom_resource_hier.c:322-546 | every run of local requests keeps it, whatever the order of grants |
| `HierResource.SafeRuns` | src/flom_resource_hier.c:218-320 | from creation on, any two distinct holders on related paths have compatible modes in every run of requests along the root name |
| `HierResource.AllRunsSafeExactly` | src/flom_resource_hier.c:322-546 | of all runs from creation on, those safe after every message are exactly those without such a clashing message |
| `HierResource.ForeignLockIsUnsafe` | src/flom_resource_hier.c:355-411 | a second lock message with another first level breaks that safety: the lock branch does not compare it with the root name |
| `HierResource.LockSafeIffLocal` | src/flom_resource_hier.c:355-411 | a lock message is safe after every earlier history exactly when its path is empty or starts with the root name |
| `HierLifecycle.AddNormal` | src/flom_resource_hier.c:110-214 | inserting along the only branch that may be bare leaves a collected tree |
| `HierLifecycle.StepKeepsNormal` | src/flom_resource_hier.c:322-546 | every completed message leaves the tree collected |
| `HierLifecycle.RunKeepsNormal` | src/flom_resource_hier.c:588-750 | every run leaves it collected |
| `HierLifecycle.NewIsBareBranch` | src/flom_resource_hier.c:218-320 | a new resource is the one branch its name spells, nothing held, nobody waiting |
| `HierLifecycle.CollectedAfterCreation` | src/flom_resource_hier.c:218-320 | the creating client is granted at once and the tree is collected after every message from then on |
| `HierLifecycle.AddThenDrop` | src/flom_resource_hier.c:620-716 | taking back the holder just inserted and collecting gives the identical tree |
| `HierLifecycle.LockUnlockRoundTrip` | src/flom_resource_hier.c:460-487 | on a collected tree with an empty queue, lock then unlock of the same path by the same connection restores the identical tree |
| `HierLifecycle.GcDistinct` | src/flom_resource_hier.c:550-584 | collection keeps sibling names distinct |
| `HierLifecycle.RunKeepsDistinct` | src/flom_resource_hier.c:322-546 | sibling names stay distinct over every run of local requests |
| `HierLifecycle.WalkFindsLock` | src/flom_resource_hier.c:611-650 | the walk along the path of a lock ends in the node that holds it |
| `HierLifecycle.UnlockReleases` | src/flom_resource_hier.c:460-487 | an unlock of a path the connection holds takes away one lock of that connection on that path and nothing else |
| `HierLifecycle.DisconnectCanLeak` | src/flom_resource_hier.c:611-620 | a disconnection need not release the lock: of two clients on unrelated branches, the second goes and its lock stays |
| `HierLifecycle.DisconnectReleasesAllExactly` | src/flom_resource_hier.c:588-750 | a client that goes away has no lock left exactly when it had none, or when its one lock was on the deepest existing element along the resource name and the queue pass serves no request of its own |
| `HierLifecycle.DisconnectReleasesIdleExactly` | src/flom_resource_hier.c:588-750 | a client with any number of locks that waits for nothing has none left exactly when it had none, or one, on the deepest existing element along the resource name: a condition on the state before it goes |
| `HierLifecycle.DisconnectReleasesExactly` | src/flom_resource_hier.c:611-716 | a client with one lock that waits for nothing loses it exactly when the deepest existing element along the resource name is the locked one |
| `HierObjects.CheckLock` | src/flom_resource_hier.c:52-106 | the loop with its running flag over the linked elements computes the pruned check of the tree they stand for |
| `HierObjects.Resource.constructor` | src/flom_resource_hier.c:218-320 | a new resource is one branch without holders, an empty queue and the creating name |
| `HierObjects.Resource.Search` | src/flom_resource_hier.c:120-160 | the search for the insertion point, with its flags, stops where the recursive insertion would insert |
| `HierObjects.Resource.Extend` | src/flom_resource_hier.c:160-200 | missing levels are appended one below the other until the path is complete |
| `HierObjects.Resource.AddLocker` | src/flom_resource_hier.c:110-214 | the linked tree becomes the one with the holder inserted, and the internal error is never reached |
| `HierObjects.Collect` | src/flom_resource_hier.c:550-584 | the in-place collection leaves the collected tree and touches nothing at or above its level but the element itself |
| `HierObjects.Resource.Waitings` | src/flom_resource_hier.c:888-1002 | the loop that removes granted waiters by index computes the queue pass |
| `HierObjects.Resource.Locate` | src/flom_resource_hier.c:611-650 | the walk along the resource name ends in the deepest existing element |
| `HierObjects.Resource.Clean` | src/flom_resource_hier.c:588-750 | the in-place clean-up computes the clean-up of the value-level resource |
| `HierObjects.Resource.Lock` | src/flom_resource_hier.c:355-459 | a lock message computes the new tree, queue and answer |
| `HierObjects.Resource.Unlock` | src/flom_resource_hier.c:460-487 | an unlock message of another first level is refused and changes nothing; otherwise the name is replaced and the connection cleaned up |
| `NumericPool.NoOverflow` | src/flom_resource_numeric.c:49-60 | in every balanced pool the subtraction of the check and the addition of a grant fit 32 bits and the check means "fits the free quantity" |
| `NumericPool.LockMeans` | src/flom_resource_numeric.c:142-238 | a request is granted exactly when it fits what is free, impossible exactly when it exceeds the total, and otherwise queued last or refused as its wait flag says |
| `NumericPool.ServeKeepsBalance` | src/flom_resource_numeric.c:452-547 | a queue pass keeps the balance, and whoever is left asks for more than is free but not more than the total |
| `NumericPool.RunBalances` | src/flom_resource_numeric.c:115-308 | over any run of such messages the locked quantity is the sum over the holders and within 0 and the total, every waiter must wait, and no holders means an empty queue |
| `NumericPool.StepKeepsSound` | src/flom_resource_numeric.c:312-414 | each message keeps these accounts if a requested quantity is not negative or exceeds the total, and so does each disconnection |
| `NumericPool.RunKeepsSound` | src/flom_resource_numeric.c:312-414 | so does every run of such messages, and nobody holds or asks a negative quantity in it |
| `NumericPool.ImpossibleIsForEver` | src/flom_resource_numeric.c:143-148 | in every reachable state a request is answered "impossible" exactly when it exceeds the total, and the check never grants it |
| `NumericPool.PossibleWhenIdle` | src/flom_resource_numeric.c:143-238 | any other request is granted by a pool without holders |
| `NumericPool.FirstFitUnique` | src/flom_resource_numeric.c:452-547 | the rule "granted exactly when it fits what the grants before it leave" has one solution |
| `NumericPool.ServeIsFirstFit` | src/flom_resource_numeric.c:452-547 | the queue pass is that solution: it grants the marked waiters in order and keeps the others in order |
| `NumericPool.ServePartition` | src/flom_resource_numeric.c:452-547 | holders and waiters together are the same before and after a pass |
| `NumericPool.CleanQueue` | src/flom_resource_numeric.c:312-414 | a clean-up keeps the order of the queue; if the connection holds nothing, its first request leaves the queue and nothing else changes |
| `NumericPool.CleanConserves` | src/flom_resource_numeric.c:312-414 | a clean-up takes away one record of the connection, a held one first, and no other |
| `NumericPool.StepConserves` | src/flom_resource_numeric.c:115-308 | a message changes holders and waiters together only by the request that arrives or leaves |
| `NumericAccounts.ServeFromAnywhere` | src/flom_resource_numeric.c:452-547 | a pass from any locked quantity up to the total, below zero too, stays the sum and within the total, leaves only waiters that must wait, and ends below zero only if it granted everybody |
| `NumericAccounts.RequestKeepsExactly` | src/flom_resource_numeric.c:143-183 | from any state in which the accounts hold (locked is the sum and within the bounds, every waiter must wait), a request keeps them exactly when it does not fit, or what is then locked is not below zero and leaves no room for a waiter |
| `NumericAccounts.ReleaseKeepsExactly` | src/flom_resource_numeric.c:312-414 | a release keeps them exactly when what stays locked is within the bounds, or is below zero but not so far that the room overflows and all waiters together bring it back |
| `NumericAccounts.StepAccountsExactly` | src/flom_resource_numeric.c:115-308 | the same for every message and disconnection |
| `NumericAccounts.AllRunsAccountedExactly` | src/flom_resource_numeric.c:115-308 | of all runs of a new pool, those in which the accounts hold after every message are exactly those without such a message, and no message is one if no requested quantity is negative unless it exceeds the total |
| `NumericAccounts.RequestSafeExactly` | src/flom_resource_numeric.c:143-183 | a request keeps the accounts after every earlier history of such quantities exactly when its own is not negative or exceeds the total |
| `NumericAccounts.NegativeRequestCanPass` | src/flom_resource_numeric.c:312-414 | a negative request may pass: with a total of 5, after 3 and -2 the accounts hold, and the release of the 3 breaks them |
| `NumericResource.Resource.constructor` | src/flom_resource_numeric.c:64-111 | a new pool has the given total, nothing locked and nobody waiting |
| `NumericResource.Resource.Waitings` | src/flom_resource_numeric.c:452-547 | the loop that removes granted waiters by index computes the queue pass |
| `NumericResource.Resource.Clean` | src/flom_resource_numeric.c:312-414 | the two searches and the removal compute the clean-up |
| `NumericResource.Resource.Lock` | src/flom_resource_numeric.c:142-238 | a lock message computes the new pool and the answer |
| `NumericResource.Resource.Unlock` | src/flom_resource_numeric.c:239-266 | another name is refused and changes nothing |
| `SequenceValues.OldestRolledBackFirst` | src/flom_resource_sequence.c:63-81 | in every reachable state, before and after the counter wraps, a value drawn is not zero, is the oldest rolled back one if there is one, and none is lost |
| `SequenceValues.RunKeepsNoZero` | src/flom_resource_sequence.c:63-81 | no value held or rolled back is ever zero |
| `SequenceValues.GrantConserves` | src/flom_resource_sequence.c:191-212 | a grant moves one value from the counter or the rolled back queue to a holder |
| `SequenceValues.StepConserves` | src/flom_resource_sequence.c:144-348 | each message keeps the account: in play before plus drawn equals in play after plus spent |
| `SequenceValues.RunConserves` | src/flom_resource_sequence.c:352-450 | so does every run |
| `SequenceValues.RunIssues` | src/flom_resource_sequence.c:63-81 | the values drawn over a run are consecutive in the cycle of all non-zero 32-bit values |
| `SequenceValues.RunAccounts` | src/flom_resource_sequence.c:85-140 | over any run the drawn values are 1, 2, 3 and so on with zero skipped, and each is held, rolled back or spent, with repetition counted |
| `SequenceValues.NoRepeatUntilWrap` | src/flom_resource_sequence.c:63-81 | no value is in two places or issued again exactly as long as the counter has issued at most 2^32 - 1 values |
| `SequenceValues.RepeatsAfterWrap` | src/flom_resource_sequence.c:63-81 | and the repetition is real: a client that locks and commits 2^32 times gets a value twice |
| `SequenceValues.Partition` | src/flom_resource_sequence.c:352-392 | before the counter wraps each value below it is in exactly one place: held, rolled back or spent |
| `SequenceValues.GapFree` | src/flom_resource_sequence.c:352-392 | with no holders and nothing rolled back, the spent values are exactly the issued ones |
| `SequenceValues.CleanQueue` | src/flom_resource_sequence.c:393-416 | a clean-up keeps the order of the queue; if the connection holds no value, its first request leaves the queue and nothing else changes |
| `SequenceFairness.UnlockRefused` | src/flom_resource_sequence.c:269-305 | an unlock under another name, or by a connection that holds no value, is refused with a code of its own and changes nothing |
| `SequenceFairness.ServeTakesFirst` | src/flom_resource_sequence.c:495-608 | a pass grants exactly the first waiters there is room for, in order, and leaves the rest in order |
| `SequenceFairness.NewcomersQueue` | src/flom_resource_sequence.c:179-268 | a request is granted exactly when something is free, and then nobody was waiting; otherwise it joins the end of the queue or is refused |
| `SequenceFairness.ReleaseServesHead` | src/flom_resource_sequence.c:269-305 | a released value goes to the waiter that came first |
| `SequenceFairness.CommitOrRollback` | src/flom_resource_sequence.c:269-305 | an unlock spends a committed value and puts a rolled back one of a transactional sequence at the end of its queue; the first waiter gets the oldest of that queue, or else a new value |
| `SequenceFairness.TransactionalMeans` | src/flom_resource_sequence.c:352-392 | in every reachable state, a sequence that is not transactional has each issued value held or spent and spends what is unlocked, with or without rollback; a transactional one spends only what is committed |
| `SequenceFairness.ServeTellsHolders` | src/flom_resource_sequence.c:495-608 | what a pass tells the granted waiters, value included, is what they now hold |
| `SequenceFairness.DisconnectRollsBack` | src/flom_resource_sequence.c:352-392 | going away without unlocking is the same as an unlock with rollback |
| `SequenceFairness.RunIsFair` | src/flom_resource_sequence.c:49-59 | in every reachable state the count is the number of holders and within the total, the 32-bit arithmetic is exact, and somebody waits only when all is locked |
| `SequenceFairness.FewGaps` | src/flom_resource_sequence.c:63-81 | the counter is never ahead of the spent values by more than the total |
| `SequenceResource.Resource.Get` | src/flom_resource_sequence.c:63-81 | the draw with its second increment computes the value and the new counter and queue |
| `SequenceResource.Resource.Waitings` | src/flom_resource_sequence.c:495-608 | the loop that removes granted waiters by index computes the queue pass |
| `SequenceResource.Resource.Clean` | src/flom_resource_sequence.c:352-450 | the clean-up pushes the value back if it must and serves the queue |
| `SequenceResource.Resource.Lock` | src/flom_resource_sequence.c:179-268 | a lock message computes the new state and answers with the value |
| `SequenceResource.Resource.Unlock` | src/flom_resource_sequence.c:269-305 | another name or a connection that holds nothing is refused without a change; otherwise the rollback flag is set before the clean-up |
| `Handoff.SafeOrders` | src/flom_daemon.c:2054-2085 | termination strands no connection in any interleaving exactly when the main thread compares the sequences before it reads the idle periods and the locker zeroes these at any point before it publishes the sequence, be it before or after the token, the pointer or the import; import before or after publication does not matter |
| `Handoff.IdleFirstStrands` | src/flom_daemon.c:2057-2058 | with the two reads swapped there is an interleaving that closes the pipe of a locker that owns a client |
| `Handoff.LateZeroStrands` | src/flom_locker.c:414-434 | so there is when the idle periods are zeroed at any point after the publication, between it and the import or at the end |
| `Handoff.StepKeepsHealthy` | src/flom_locker.c:233-249 | every step of any thread keeps: idle periods are counted only without clients; the pipe holds in order what is not yet taken; a closed locker is done |
| `Handoff.RunKeepsHealthy` | src/flom_daemon.c:2040-2120 | every interleaving keeps it |
| `Handoff.HealthyStrandsNothing` | src/flom_daemon.c:2058-2085 | then a locker whose write end is closed has an empty pipe and no connection, and nothing is being sent to it |
| `Handoff.MoveKeepsHealthy` | src/flom_locker.c:414-436 | no move of a locker breaks it, and a locker that has consumed everything stays so until the next token |
| `Handoff.ConsumedMeansEmpty` | src/flom_daemon.c:2057-2057 | equal sequences mean an empty pipe and no token in hand |
| `Handoff.TerminationCompletes` | src/flom_daemon.c:2086-2110 | from every reachable state with a closed write end, the locker can end and the next check joins it |
| `Handoff.FairTermination` | src/flom_locker.c:233-345 | after the write end is closed, any interleaving in which the locker gets each of its ending moves in three stretches ends it, whatever all threads do between them |
| `Handoff.CheckJoins` | src/flom_daemon.c:2075-2110 | then every complete check of the main thread joins it, whatever happens between the two reads |
| `Handoff.Delivers` | src/flom_locker.c:380-470 | from every reachable state in which nothing is half sent to it, an open locker left to itself takes every connection it was sent into its array and polls again |
| `Handoff.StepConserves` | src/flom_daemon.c:1894-1951 | no step loses or duplicates a connection: only an arriving one gets a place and only an ended one loses it |
| `Handoff.ExactlyOnce` | src/flom_daemon.c:1894-1951 | in every interleaving a connection that has arrived and not ended is in exactly one place and any other in none, and every pipe holds in order the pairs not yet taken, the last perhaps half written |
| `Handoff.NeverLost` | src/flom_conns.c:207-249 | in every reachable state the next step changes the number of places of a connection only by arrival or end |
| `Connections.RemoveFastContents` | src/flom_conns.c:225-230 | removal by index takes out that one element and keeps the ones before it in place |
| `Connections.SiftContents` | src/flom_conns.c:260-285 | a loop that removes by index takes out exactly the elements that qualify, each once, and leaves the others |
| `Connections.SiftKeepsFront` | src/flom_conns.c:260-285 | the elements before the first one removed stay where they are |
| `Connections.ConnectionArray.Import` | src/flom_conns.c:83-88 | an imported connection is appended |
| `Connections.ConnectionArray.TransferFd` | src/flom_conns.c:207-249 | a transferred connection is marked and leaves the array |
| `Connections.ConnectionArray.CloseFd` | src/flom_conns.c:162-203 | a closed connection is marked for removal and stays |
| `Connections.ConnectionArray.Clean` | src/flom_conns.c:253-304 | the cleaning loop takes out the connections marked for removal |
| `MainThread.FirstLevelMeans` | src/flom_resource_hier.c:817-842 | the first level of a name is its longest beginning without a separator |
| `MainThread.ManagesMeans` | src/flom_resource_hier.c:817-842 | of two hierarchical names one manages the other exactly when, after the leading separator, they are the same up to the next one |
| `MainThread.LevelsJoin` | src/flom_resource_hier.c:626-630 | the levels of a name contain no separator, and joined by it give the name back |
| `MainThread.JoinLevels` | src/flom_resource_hier.c:626-630 | and no other path does |
| `MainThread.ManagesIsSameKey` | src/flom_resource_hier.c:817-842 | matching a name against a locker, by first level or as a whole, is equality of a key |
| `MainThread.HandedLocksAreLocal` | src/flom_resource_hier.c:817-842 | a client handed to a hierarchical locker locks below its root, as the safety of the resource requires |
| `MainThread.FindLocker` | src/flom_daemon.c:1684-1713 | the locker found is the first one with both pipes open that manages the name |
| `MainThread.DrainMoves` | src/flom_daemon.c:1789-1827 | the drain hands over exactly the waiting connections of the new locker, each with its own sequence number, and leaves slot 0 alone |
| `MainThread.DrainKeepsSecond` | src/flom_daemon.c:1789-1806 | a second slot that does not wait stays in place |
| `MainThread.TransferDecides` | src/flom_daemon.c:1684-1790 | an invalid name is refused as such and changes nothing; a valid request goes to the only locker that serves it, wherever in the array that is; only if there is none do the create and then the wait flag decide between a new locker, the incubator, which marks the client, and a refusal, which changes nothing |
| `MainThread.TransferKeepsConsistent` | src/flom_daemon.c:1611-1890 | a transfer starts no second active locker for a resource and leaves nobody waiting for one that exists, unless the client already waits and its name is invalid and managed |
| `MainThread.StepConsistentExactly` | src/flom_daemon.c:1012-1230 | every event of the main loop keeps these two exactly when it is not a client in the incubator asking again with an invalid name that an active locker manages |
| `MainThread.RunsAreConsistent` | src/flom_daemon.c:1012-1230 | in every run from the start no incubated client ever waits for a resource that is managed, and no two active lockers manage the same, exactly when no event is such a request |
| `MainThread.ForgottenClient` | src/flom_daemon.c:1661-1682 | such a request is possible: waiting for "/b", then asking for "/a/" while "/a" has its locker |
| `MainThread.OneActiveAlways` | src/flom_daemon.c:1684-1830 | in every reachable state, whatever is asked, no two active lockers manage the same resource and the listener stays in slot 0 |
| `MainThread.ListenersStay` | src/flom_daemon.c:1789-1827 | a second socket of the daemon's own in slot 1 stays there, as the listener does in slot 0, over every run in which it sends no request and is not closed |
| `Clients.ClientsConserved` | src/flom_daemon.c:1611-1951 | no event of the main loop loses or duplicates a client: counted over the array and all that lockers were handed, only an accept adds one, and only the clean-up of closed ones and the join of a locker take some away |
| `Clients.InOnePlace` | src/flom_daemon.c:1611-1951 | so in every run a connection accepted once is never with two lockers, nor with one and still in the array |
| `MainThreadObjects.AcceptLoop.FindLocker` | src/flom_daemon.c:1684-1713 | the loop over the array finds it |
| `MainThreadObjects.AcceptLoop.TransferConn` | src/flom_daemon.c:1894-1951 | the sequence number grows, the connection leaves the array and is added to what the locker was handed |
| `MainThreadObjects.AcceptLoop.DrainIncubator` | src/flom_daemon.c:1789-1827 | the loop that removes while it scans computes the drain |
| `MainThreadObjects.AcceptLoop.StartLocker` | src/flom_daemon.c:1955-2036 | a new locker gets its creator first and then the incubated clients |
| `MainThreadObjects.AcceptLoop.Transfer` | src/flom_daemon.c:1611-1890 | the whole transfer computes the new arrays and the answer |
| `Listing.LockLists` | src/flom_resource_numeric.c:143-238 | after a lock request of any of the three resources, "ok" means listed as holder, "enqueued" means listed as waiter, and any other answer means nothing changed |
| `Listing.HierClean` | src/flom_resource_hier.c:588-750 | a clean-up of one connection leaves the listing of every other alone, except for moving it from the queue to the holders |
| `Listing.NumericClean` | src/flom_resource_numeric.c:312-414 | the same for the numeric resource |
| `Listing.SequenceClean` | src/flom_resource_sequence.c:352-450 | the same for the sequence resource |
| `Listing.OthersRespect` | src/flom_locker.c:300-345 | all that messages and disconnections of others can do to a connection is to turn it from waiter to holder, and then it is told so |
| `Departure.CleanUpCounts` | src/flom_locker.c:300-345 | a clean-up of any of the three resources takes away one record of its connection, held or waiting, if it finds one, and none of any other |
| `Departure.RecordsConserved` | src/flom_locker.c:300-345 | over any event: records come only by a lock request that is granted or queued and go only by an unlock or the end of the connection, one at a time; a grant from the queue or anything others do leaves their number alone |
| `Departure.GoneForGood` | src/flom_resource_hier.c:588-750 | a client that sent one lock request and goes away neither holds nor waits in any later state, whatever others do: always at a numeric resource or a sequence, and at a hierarchical one exactly unless it holds its lock elsewhere than the walk along the resource name ends |
| `Agreement.FirstMeans` | src/flom_client.c:1009-1050 | the first answer grants exactly with "ok" at step 16, makes the client wait exactly with "enqueued" or "wait for the resource", and a failure told is the code of the daemon |
| `Agreement.LaterMeans` | src/flom_client.c:1160-1217 | in the loop an answer grants exactly at step 24 with any code but "enqueued", or at step 32 with "ok" |
| `Agreement.FailureMeans` | src/flom_client.c:1003-1065 | in every run a client is told "impossible" only if it asked for more than the total, "busy" only if it does not wait, "cannot wait" only if it neither waits nor creates, and of no other failure |
| `Agreement.AgreementExactly` | src/flom_client.c:1003-1065 | client and daemon agree in every run on granted and failed exactly when the request is not one for more than the total of a numeric resource that somebody else is to create |
| `Agreement.GrantedIffHolder` | src/flom_client.c:1160-1217 | once all answers are read, the client is told "granted" exactly when the daemon lists it as holder |
| `Agreement.MisreadDisagrees` | src/flom_client.c:1192-1216 | the exception: the refusal at step 24 is taken for a grant by the waiting loop |
| `Agreement.HandlingKeepsSane` | src/flom_resource_numeric.c:143-238 | the answer a locker gives leaves client and daemon in matching states, at step 16 and at step 24 |
| `Agreement.OthersKeepSane` | src/flom_resource_numeric.c:488-508 | so does whatever other clients do, the grant message included |
| `Agreement.RunKeepsSane` | src/flom_daemon.c:1734-1755 | so does every run |
| `Agreement.FinalStays` | src/flom_client.c:1160-1217 | a client that has its result is not changed by later answers |
| `Client.Session.WaitLock` | src/flom_client.c:1142-1242 | the loop reads answers up to the first final one and ends with the outcome of exactly those |
| `Client.Session.Lock` | src/flom_client.c:1000-1065 | so does the whole call |
| `Client.CallMeansWhatItSays` | src/flom_client.c:1000-1065 | a call that ends with "granted" over the answers of any run left the connection a holder, one that fails left it neither holder nor waiter and with the reason its request gave |
| `Decimal.PrintReadBack` | src/flom_msg.c:1706-1730 | strtol reads back every printed integer, clamped to the range of a long |
| `Decimal.IntRoundTrip` | src/flom_msg.c:1706-1730 | every 32-bit integer survives printing and reading |
| `Decimal.PortRoundTrip` | src/flom_msg.c:1837-1841 | every port number does |
| `Messages.LegalIsPrintable` | src/flom_msg.c:346-412 | no message is legal for both sides, and those legal for one are exactly the printable ones |
| `Messages.ProtocolMeans` | src/flom_msg.c:348-412 | the client opens every conversation but a ping; the first step is legal for the side that opens, and the answers (three to a lock, one to a ping or discovery) for the other |
| `Messages.AnswerArrives` | src/flom_msg.c:2034-2114 | an answer to a lock request is built for exactly steps 16, 24 and 32, is legal for the daemon, and is read back with its code, its element if it has one and, at step 16, the daemon identifier |
| `Messages.OthersIgnored` | src/flom_msg.c:1699-1895 | an attribute that a message of that verb and step does not store changes nothing |
| `Messages.RejectsExactly` | src/flom_msg.c:1699-1895 | an attribute is rejected exactly when the element is strict about it and does not store it, or when it gives another level |
| `Messages.OpeningRoundTrip` | src/flom_msg.c:1703-1712 | the header is read back whatever its numbers; another level makes the message invalid at once |
| `Messages.ResourceRoundTrip` | src/flom_msg.c:649-740 | the resource element of a lock request comes back with the fields its type carries and zero for the others |
| `Messages.AnswerRoundTrip` | src/flom_msg.c:801-825 | the answer of steps 16, 24 and 32 comes back, with or without an element |
| `Messages.UnlockRoundTrip` | src/flom_msg.c:974-983 | so do the name and rollback flag of an unlock |
| `Messages.NetworkRoundTrip` | src/flom_msg.c:1106-1118 | and the address and port of a discover answer |
| `Messages.RoundTrip` | src/flom_msg.c:1631-1949 | whatever elements are printed are read back from a zeroed message: ready exactly at the reader's own level, every carried field equal, an absent string empty, every other field zero |
| `Messages.EndElementMeans` | src/flom_msg.c:1965-2030 | a message becomes ready only by the end of its own element while it is read, an end before any start makes it invalid, and then it stays so |
| `MessageText.HalfPrintedMeans` | src/flom_msg.c:1151-1172 | the session is counted twice exactly in a management message that has nothing after it |
| `MessageText.ReadableExactly` | src/flom_msg.c:1159-1172 | the printed text has no terminator inside, and so can be read to its end, exactly when the message is not a management message without an action, which is printed with a hole |
| `Markup.TextReadsBackExactly` | src/flom_msg.c:416-616 | the printed text of a message whose strings contain no markup is read back, character by character, as exactly the elements that were printed, and cannot be read exactly when it has the hole |
| `Markup.HoleExample` | src/flom_msg.c:1159-1172 | one management message printed with the hole, and its text |
| `MessageObjects.Printer.Put` | src/flom_msg.c:423-445 | a bounded print either fits, advancing the offset by its length with offset plus free staying the buffer length, or is reported and counts nothing |
| `MessageObjects.PrintAll` | src/flom_msg.c:416-616 | printing piece by piece succeeds exactly when the counted length is below that of the buffer, and then the buffer shows the pieces one after the other |
| `MessageObjects.Serialize` | src/flom_msg.c:416-616 | for every message: a buffer too short is reported as such whatever else is wrong; otherwise the buffer shows all pieces, the hole included, or the fault is that of the form |
| `MessageObjects.Message.ReadAttr` | src/flom_msg.c:1699-1895 | the handling of one attribute changes the fields it names and rejects what the verb does not allow |
| `MessageObjects.Message.StartElement` | src/flom_msg.c:1631-1949 | the cursor loop stops at the first rejected attribute and marks the message invalid |
| `MessageObjects.Message.EndElement` | src/flom_msg.c:1965-2030 | only the end of the message element makes a message that is being parsed ready |
| `MessageObjects.Message.ReadDocument` | src/flom_msg.c:1631-2030 | the handlers fed with the events of a document compute the reading of its elements |
| `MessageObjects.Transmit` | src/flom_msg.c:416-2030 | printed into a buffer, and the characters in it read from there: it succeeds exactly for a message with a form that fits, the text is readable exactly when it has no hole, and fills a zeroed message with exactly what is carried |
| `MessageObjects.Message.BuildAnswer` | src/flom_msg.c:2034-2114 | an answer is built for steps 16, 24 and 32 and for no other |

## Left out

- Sockets, TLS, multicast discovery, the virtual file system, configuration, tracing and daemonizing are not modelled; poll is a free choice of event and a timeout is a step.
- Memory allocation failures, read and write errors on the pipes and failed sends are not modelled; the path of a failed send during a queue pass, which frees a record it has already handed on, is therefore absent.
- The simple, set and timestamp resources and the parsing of resource names by regular expressions are not modelled; whether a name is valid, its total and whether a sequence is transactional are inputs.
- Hierarchical names are sequences of levels; the splitting of the text is modelled only where the main thread compares names.
- The lock mode of a hierarchical request is one of the six modes; a number outside them is not modelled.
- A lock request that is not the first message of its connection keeps its effect on the resource in the model, but the step number of its answer is modelled only for the first one.
- Handoff.SafeOrders: does not model the 32-bit wrap of the two sequence counters, which count the clients handed to one locker.
- Handoff.ExactlyOnce: a joined locker keeps its place in the list of lockers, where the program removes it; the numbering of lockers is then stable.
- MainThread.RunsAreConsistent: a message is received whole, so the name of a client that waits does not change while its next message is still incomplete; a closed connection is still drained if it waits, as in the program.
- MainThreadObjects.AcceptLoop.Transfer: does not model the shutdown of the socket after a refusal nor the text of the reply.
- Agreement.AgreementExactly: the client sends one lock request and reads each answer in one receive; answers that arrive glued together, its time-out and its disconnection are not modelled.
- Messages.RoundTrip: works on elements and attributes, with names in their encoded form; base64 (section 4 of RFC 4648) is library code.
- Markup.TextReadsBackExactly: the program's tokenizer is library code and not part of this model; what reads the text here is the fragment of markup in which messages are printed, without entities, comments or other white space, and it reads a complete text at once. A value with a quote, an opening bracket, an ampersand or a terminator, which the printer does not escape, is outside it.
- MessageObjects.Transmit: the strings of the message contain none of those four characters; names are base64 text and identifiers are hexadecimal, an element name is sent as it is.
- HierResource.StepKeepsSafe: speaks of local requests only, as an inductive step; `HierResource.StepSafeExactly` covers every message.
- HierResource.SafeRuns: speaks of runs of local requests only; `HierResource.AllRunsSafeExactly` covers every run.
- HierLifecycle.DisconnectReleasesAllExactly: its condition names the result of the queue pass, because a client may have requests in the queue that its own release grants; for a client without any, `HierLifecycle.DisconnectReleasesIdleExactly` needs only the state before. The grant message to a waiting request of the client that is gone is taken to succeed; in the program its failure frees the record of that request.
- HierObjects.Resource.AddLocker: creating a branch and appending to it is modelled with elements that know their father only in ghost fields.
- NumericResource.Resource.Lock and its siblings return the answer code; the building and sending of the answer message is modelled in `Agreement` and `MessageObjects`.
