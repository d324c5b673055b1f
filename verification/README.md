# A verified model of the control panel's hard cores

This project models, in Dafny, the parts of the repository whose correctness depends on interleavings,
on whole streams or on every input, and proves what they are for.

The repository is a control panel for research agents with a public demo gateway in front of it. Its hard
logic is a set of small lock-guarded state machines, a few optimistic protocols against a database, and some
encoders and stream folds. Each is a module here:

| module | what it models |
|---|---|
| `ProjectOpening` | single-flight opening of projects racing with deletion |
| `SlidingWindow` | the rate limit shared by the two gateway parts below |
| `RequestGate` | admission of proxied requests: caps, rate limit, reset marks, leases |
| `ChildProcesses` | the pool of child processes: leases, reaping, eviction, stopping, start-up polling |
| `SessionTables`, `SessionRegistry` | durable demo sessions: their tables, rows against directories, caps, crashes, creation rate |
| `Gateway` | the three gateway parts composed into one system, and the safety of starting over |
| `GraphWatchers` | reconciling a log of accepted graph boundaries into one-shot watchers |
| `RetryWorker`, `RetryBackoff` | the generation-fenced retry thread and its back-off table |
| `Snapshots` | optimistic commits of display snapshots |
| `Dispatch` | the claim that starts at most one worker per task, across crashes |
| `SessionOwnership` | which native agent sessions may be resumed |
| `StreamFold` | the bounded fold of an agent's event stream |
| `StartupFence` | the fence that holds effects back during startup |
| `WebBuild` | the byte stream whose hash identifies a Web bundle |
| `ChatBackup` | the prefix of a chat file that a backup keeps, and its restore |
| `Attachments` | attachment sets and the resumable migration of a project's identity |
| `Timestamps` | UTC stamps compared as text |
| `ExperimentControl` | the graph gates of an Experiment, pinned decisions and drift |

`Options` and `Bytes` hold two shared types.

Concurrent code is modelled as a transition system. A block that runs under one lock, or one SQL transaction,
is one step; the work between blocks is separate steps of the thread that does it; a run is any finite sequence
of enabled steps. The same blocks appear as methods of a class with the source's fields, each proved equal to
its step, and the steps are what the invariants and run theorems are about. Loops of the source are loops here.
Clocks, health reads, disks, file contents, JSON and hashes are inputs: each call is given what it would see.
Identities are natural numbers of which only equality, and where the source sorts them the order, is used.

`dafny verify dfyconfig.toml` checks everything.

## Results that differ from what one might expect

The code was kept as it is. Where a tempting property fails, one lemma gives an input that breaks it and
another says exactly when it holds.

- A child lease is given back by session, not by process (challenge/gateway_processes.py:138-146). Use counts
  are exact throughout a run, and no release raises, if and only if no lease is given back after its session's
  child was replaced by another (`RunExact`); a leased process that exits does no harm by itself.
  `LeasedExitBreaksTheAccount` shows a run in which one is given back so and a later release raises.
- Start-up handles only three kinds of error from its health read (challenge/gateway_processes.py:252-254); any
  other, such as a malformed status line, leaves the process running without an owner (`AbandonedByTheReader`).
  Every live process is owned throughout a run if and only if no start is abandoned so (`PoolProperty`). Such a
  process can also run on for a copy that a start-over removed (`RemovedCopyLeavesTraces`); otherwise none does
  (`StartOverIsSafe`).
- A request bound before a start-over and admitted after it prepares the launch before it misses the manifest,
  and so brings the data directory of the removed copy back (`RemovedCopyLeavesTraces`); the copy is never
  complete again (`RemovedCopyStaysQuiet`).
- The registry reads its clock before it copies the fixture, so a slow copy brings an old time into its
  transaction. The creation limit holds when those times do not go back (`CreationLimit`) and tolerates no lag
  at all, under any limits (`ToleratedLag`, `LagExceedsTheLimit`).
- The stored snapshot is not the greatest pair offered (`NotTheGreatestPair`). A write that replaces the cache
  file and then fails breaks the order of stored pairs (`TornWriteBreaksTheOrder`), for freshness-only updates
  too (`TornWriteLetsFreshnessGoBack`); `OrderAtEveryMoment`, `StoredPairNeverDecreases` and
  `FreshnessNeverGoesBack` say exactly when the order is safe. A freshness-only update can bring an old body
  back when another view of the same revision is committed after it read (`LateRefreshRevivesAnOldBody`); when
  the stored pair is the one it read, freshness is all it changes.
- Uploading and removing an attachment write the file and the listing one after the other. Sets stay whole
  throughout a run if and only if no call is stopped between the two (`SetsStayWhole`); a removal that is leaves
  a set that can never be claimed (`InterruptedRemovalSpoilsTheSet`).
- A bundle of pinned decisions shows no drift against its own graph exactly when each pinned decision is kept
  under its own identity or has a twin there, decided alike (`FreshBundleStands`, `MisKeyedGraphDrifts`).
- A session may be an empty string: it is present but counts as none, and a task begun with one never carries
  a session at all; `IngestSessionsAreOwned` speaks of the others.

## Model

| member | source | states |
|---|---|---|
| `ProjectOpening.EveryInterleavingIsSafe` | src/rcp/projects.py:1486-1527 | In every interleaving of openers, waiters and deleters an installed service belongs to a registered project that is neither being opened nor deleted, each open has one live owner, each delete mark a live deleter, and every unfinished future, waited for or not, a live thread that owes its answer |
| `ProjectOpening.RunInv` | src/rcp/projects.py:1486-1635 | The inductive invariant, with what each program counter knows, survives every step of every schedule |
| `ProjectOpening.RemovalFindsNobody` | src/rcp/projects.py:1600-1625 | Past its wait a deleter finds nothing installed and no thread that could still install |
| `ProjectOpening.DeletedStaysUninstalled` | src/rcp/projects.py:1590-1635 | A deleted project that is not registered again is never installed again |
| `ProjectOpening.AnswerComesNearer` | src/rcp/projects.py:1501-1527 | No waiter is lost: the owner of an unfinished future can always step, its steps bring the answer nearer, and nobody else delays it |
| `ProjectOpening.AnswersAreFinal` | src/rcp/projects.py:1506-1527 | A future is answered once: every waiter of one attempt gets the same answer |
| `ProjectOpening.ProjectCatalog.ClaimOpen` | src/rcp/projects.py:1493-1503 | The first locked block: refuse, return the cached service, wait, or own the open |
| `ProjectOpening.ProjectCatalog.DropClaim` | src/rcp/projects.py:1511-1512 | A failed open gives its claim up before it tells the waiters |
| `ProjectOpening.ProjectCatalog.TellFailure` | src/rcp/projects.py:1513-1514 | The waiters are answered with the failure, outside the lock |
| `ProjectOpening.ProjectCatalog.InstallOpened` | src/rcp/projects.py:1516-1522 | The last locked block installs and answers, or drops the claim when a delete has begun |
| `ProjectOpening.ProjectCatalog.BeginDelete` | src/rcp/projects.py:1595-1600 | The deleter's mark goes up, the service comes down, and the open in flight is captured, in one block |
| `ProjectOpening.ProjectCatalog.EndDelete` | src/rcp/projects.py:1633-1635 | The mark is dropped whatever happened |
| `SlidingWindow.NoWindowExceedsLimit` | challenge/gateway.py:154-168 | Grants spaced by the limit put at most that many in the window ending at any instant |
| `SlidingWindow.QueueIsTheWindow` | challenge/gateway.py:154-168 | After pruning, the kept queue counts exactly the grants of the window ending now |
| `SlidingWindow.RetrySuffices` | challenge/gateway.py:157-165 | Waiting the advertised delay empties a place in the queue |
| `RequestGate.AcquireAccounts` | challenge/gateway.py:135-168 | Acquiring keeps counts equal to outstanding leases, within both caps, and none on a resetting session |
| `RequestGate.ReleaseAccounts` | challenge/gateway.py:170-175 | Giving an outstanding lease back keeps the accounts |
| `RequestGate.ResetAccounts` | challenge/gateway.py:177-187 | A mark is placed only on a session without leases |
| `RequestGate.MinuteLimit` | challenge/gateway.py:154-168 | In every run, at every instant, the grants to a session in the last minute never exceed the limit |
| `RequestGate.RefusedIffMinuteFull` | challenge/gateway.py:154-165 | The rate check refuses only when the minute ending now is full and grants only when it is not |
| `RequestGate.AdvertisedDelaySuffices` | challenge/gateway.py:157-165 | An attempt the advertised delay later, with no grant between, is not refused by the rate check |
| `RequestGate.Requests.Acquire` | challenge/gateway.py:135-168 | The locked body is the step: caps first, then rate, then the lease |
| `RequestGate.Requests.Release` | challenge/gateway.py:170-175 | The locked body is the step, with the release of a lease nobody holds refused |
| `RequestGate.Requests.BeginReset` | challenge/gateway.py:177-183 | The mark is placed, or refused without touching the other's mark |
| `RequestGate.Requests.EndReset` | challenge/gateway.py:185-187 | The mark is dropped |
| `RequestGate.RequestLease.Release` | challenge/gateway.py:102-112 | A lease gives its place back once, however often it is released |
| `ChildProcesses.ReapMembers` | challenge/gateway_processes.py:217-231 | Reaping keeps exactly the running children in use, recently used or not quiet, and ends the rest |
| `ChildProcesses.VictimIsOldest` | challenge/gateway_processes.py:194-215 | The evicted child is a least recently used one among those idle and quiet, and there is one whenever such a child exists |
| `ChildProcesses.RunOwned` | challenge/gateway_processes.py:121-187 | In every run every live process that start-up did not abandon is a child, one per session, at most the maximum, with use counts within the leases |
| `ChildProcesses.RunExact` | challenge/gateway_processes.py:121-180 | At every moment of a run use counts equal the leases and no release raises, if and only if no lease is given back after its session's child was replaced |
| `ChildProcesses.StepExact` | challenge/gateway_processes.py:121-180 | One step from exact accounts keeps them exact and does not raise exactly when it does not give back a lease whose child was replaced |
| `ChildProcesses.PoolProperty` | challenge/gateway_processes.py:233-263 | At every moment each live process is owned, if and only if no start is abandoned to an error of the health read that start-up does not handle; one child per session and the cap hold in any case |
| `ChildProcesses.StepAllOwned` | challenge/gateway_processes.py:233-263 | One step keeps every live process owned exactly when it does not abandon the process it starts |
| `ChildProcesses.AbandonedByTheReader` | challenge/gateway_processes.py:250-263 | The first launch is enough: the health read raises, and a live process is left that nobody owns |
| `ChildProcesses.ReleaseRaises` | challenge/gateway_processes.py:138-146 | Under exact accounts a release raises exactly when the lease's child was replaced by one that nobody uses; a lease whose process is still the child's finds it in use |
| `ChildProcesses.LeasedChildStays` | challenge/gateway_processes.py:148-231 | Reaping, eviction and stopping never end a leased child: only its own exit or the closing of the pool does |
| `ChildProcesses.RunServed` | challenge/gateway_processes.py:121-180 | In a run in which no leased process exits by itself and the pool is not closed under a lease, every leased process runs and is owned until its lease is given back |
| `ChildProcesses.LeasedExitBreaksTheAccount` | challenge/gateway_processes.py:138-146 | A leased process exits, its session gets a new one and the old lease is given back: giving back the newer lease then raises |
| `ChildProcesses.ReadyIff` | challenge/gateway_processes.py:245-263 | Start-up succeeds exactly when the first conclusive probe before the deadline shows the process alive and answering for itself |
| `ChildProcesses.AwaitReady` | challenge/gateway_processes.py:245-263 | The polling loop reaches that verdict |
| `ChildProcesses.ChildProcessManager.ReapIdle` | challenge/gateway_processes.py:217-231 | The loop over the children is the reaping step |
| `ChildProcesses.ChildProcessManager.MakeProcessRoom` | challenge/gateway_processes.py:194-215 | Dropping the exited and evicting one is the step that makes room |
| `ChildProcesses.ChildProcessManager.Acquire` | challenge/gateway_processes.py:121-136 | Reaping, reuse or start, and the use count, as one step |
| `ChildProcesses.ChildProcessManager.Release` | challenge/gateway_processes.py:138-146 | One use less and the last use now, or an error |
| `ChildProcesses.ChildProcessManager.StopQuiescent` | challenge/gateway_processes.py:148-165 | Only a child without uses and without an active task is stopped |
| `ChildProcesses.ChildProcessManager.CloseAll` | challenge/gateway_processes.py:173-180 | Closing ends every owned process |
| `ChildProcesses.ChildLease.Release` | challenge/gateway_processes.py:73-82 | A lease is given back once, however often it is released |
| `SessionTables.ExpiryIsExact` | challenge/gateway_state.py:216-242 | Expiry deletes exactly the rows that expired and are not protected |
| `SessionRegistry.CreateCaps` | challenge/gateway_state.py:263-304 | A committed create keeps the row count and the recorded bytes within their caps |
| `SessionRegistry.RotateCaps` | challenge/gateway_state.py:149-214 | A committed rotation replaces one row by one, with the bytes within the cap |
| `SessionRegistry.CrashSafety` | challenge/gateway_state.py:134-242 | After any steps of any operations, cut short anywhere by crashes, every row names a complete directory of its own and the count is within its cap |
| `SessionRegistry.RunIsTries` | challenge/gateway_state.py:348-395 | The stored creation events after any run, crashes included, are those of the committed creations, each of which the rate check let pass |
| `SessionRegistry.CreationLimit` | challenge/gateway_state.py:348-395 | In every run of the registry whose committing times do not go back, no window of the creation period holds more of a client's creations than the limit |
| `SessionRegistry.ToleratedLag` | challenge/gateway_state.py:149-160 | Under any limits the creation limit holds in all runs of the registry whose committing times go back by at most a given lag if and only if that lag is not positive |
| `SessionRegistry.LagExceedsTheLimit` | challenge/gateway_state.py:263-304 | Under any limits a run of the registry in which one transaction lags by one tick, after another client's creation pruned the table, puts one creation too many into a window |
| `SessionRegistry.EveryAllowedListIsReached` | challenge/gateway_state.py:263-304 | Every list of creations that the rate check lets pass in turn is the list of some run of the registry |
| `SessionRegistry.RateIsExact` | challenge/gateway_state.py:356-370 | After any such run an attempt is rate-limited exactly when the window ending now is full |
| `SessionRegistry.AdvertisedDelaySuffices` | challenge/gateway_state.py:367-370 | Waiting the advertised delay with no creation of its own committed in between, a client is not rate-limited again |
| `SessionRegistry.DemoSessionRegistry.CloneFixture` | challenge/gateway_state.py:325-346 | A copy appears whole or not at all, and no temporary directory stays |
| `SessionRegistry.DemoSessionRegistry.Create` | challenge/gateway_state.py:263-304 | A create commits its row beside its tree, or changes nothing |
| `SessionRegistry.DemoSessionRegistry.Rotate` | challenge/gateway_state.py:149-214 | A rotation swaps row and tree, or changes nothing |
| `SessionRegistry.DemoSessionRegistry.DeleteExpired` | challenge/gateway_state.py:216-242 | Exactly the expired rows and their directories go |
| `SessionRegistry.DemoSessionRegistry.DiscardFresh` | challenge/gateway_state.py:134-147 | A fresh binding loses its row and its directory |
| `SessionRegistry.DemoSessionRegistry.Resume` | challenge/gateway_state.py:306-323 | The expiry of the session behind a cookie is renewed; a session whose copy is missing or incomplete is refused |
| `SessionRegistry.DemoSessionRegistry.Resolve` | challenge/gateway_state.py:120-132 | Expired, unprotected sessions go first, so the session found has not expired or is protected, and a cookie finds none only if it has no such session |
| `Gateway.StartOverIsSafe` | challenge/gateway.py:256-291 | From the stopping of the child until the mark drops, in every run, the old session has no gate lease, no child lease and no child; a process still runs for it only if start-up abandoned that process, and none does in a run whose starts abandon none |
| `Gateway.RemovedCopyStaysQuiet` | challenge/gateway.py:278-287 | For the rest of the run a removed copy is never complete again and has no child and no child lease, and only a process that start-up abandoned can still run for it |
| `Gateway.RemovedCopyLeavesTraces` | challenge/gateway_processes.py:233-263 | Both reservations are needed: one run ends with an abandoned process running for the removed copy, and with its directory brought back by a request bound before |
| `Gateway.OnlyTheOwnerDropsTheMark` | challenge/gateway.py:177-187 | Whatever else happens, the mark stays with the start-over that placed it until that one drops it |
| `Gateway.SecondStartOverIsRefused` | challenge/gateway.py:271-291 | A second start-over of a marked session is refused before it has anything to drop |
| `Gateway.MarkedIsQuiet` | challenge/gateway.py:135-187 | A session that is starting over has no gate lease, hence no child lease |
| `Gateway.RunInv` | challenge/gateway.py:301-373 | Gate leases enclose child leases, and every link between the three parts holds, in every run |
| `GraphWatchers.DecideExactly` | src/rcp/watchers.py:334-476 | Exactly when a boundary completes a watcher and exactly when it reports its node removed |
| `GraphWatchers.EventBeatsRemoval` | src/rcp/watchers.py:361-390 | A status event wins over the later removal of its node |
| `GraphWatchers.FirstDecisionWins` | src/rcp/watchers.py:442-476 | A log's outcome is that of the first boundary after the arm revision that decides, and active exactly when none does |
| `GraphWatchers.BatchesDoNotMatter` | src/rcp/watchers.py:984-1011 | Any sequence of passes that once sees the whole log, rereading the consumed boundary each time, leaves the store of one pass |
| `GraphWatchers.PassIsReconcile` | src/rcp/runs/transition_event_reconciliation.py:83-148 | A pass is one reconciliation call when every active watcher is armed |
| `GraphWatchers.EveryRunAgreesWithOneReading` | src/rcp/watchers.py:926-1030 | In every run, with history growing, watchers arming and passes broken off anywhere, each watcher has the verdict of one reading of the consumed boundaries |
| `GraphWatchers.VerdictsAreFinal` | src/rcp/storage/watchers.py:732-769 | No step changes a watcher's target, condition, arm revision or reached verdict |
| `GraphWatchers.FitsExactly` | src/rcp/runs/transition_event_reconciliation.py:99-113 | The running check accepts exactly the batches in order that repeat no event |
| `GraphWatchers.TransitionEventResult` | src/rcp/watchers.py:361-390 | The loop over events answers whether one of them meets the condition after the arm revision |
| `GraphWatchers.SelectBoundaries` | src/rcp/watchers.py:984-990 | The filter keeps what is not strictly before the consumed head |
| `GraphWatchers.CheckBoundaries` | src/rcp/runs/transition_event_reconciliation.py:99-113 | The loop accepts exactly the well-formed batches |
| `GraphWatchers.WatcherStore.ConsumeBoundary` | src/rcp/storage/watchers.py:611-729 | One transaction: tell every listening watcher and advance the head, or find it consumed already or changed |
| `GraphWatchers.WatcherStore.InitializeBaselines` | src/rcp/storage/watchers.py:570-609 | Unarmed watchers of the target, and no others, are armed at the current head |
| `GraphWatchers.WatcherStore.Insert` | src/rcp/storage/watchers.py:407-421 | A watcher may not arm behind the consumed head |
| `GraphWatchers.WatcherStore.ReconcileBoundaries` | src/rcp/runs/transition_event_reconciliation.py:83-148 | The whole call: checks, baselines, then boundary after boundary |
| `RetryWorker.StaleLeaseNeverRuns` | src/rcp/watchers.py:1564-1573 | Once the generation has moved on, an older lease never runs another effect, in any schedule |
| `RetryWorker.EndedGenerationIsFenced` | src/rcp/watchers.py:1502-1551 | A stop, and a start that restarts, end the generation before them |
| `RetryWorker.EffectsComeInGenerations` | src/rcp/watchers.py:1564-1573 | All effects of an earlier generation precede all effects of a later one |
| `RetryWorker.PassesAreSignalled` | src/rcp/watchers.py:1577-1585 | A generation begins at most as many passes as signals were set on it |
| `RetryWorker.DeliveryOwesAPass` | src/rcp/watchers.py:1529-1533 | A signal delivered to the current generation leaves it owing a pass |
| `RetryWorker.OwedPassComesNearer` | src/rcp/watchers.py:1577-1585 | The thread that owes a pass can always step, and each step brings it nearer or begins it |
| `RetryWorker.OwedPassIsNotForgotten` | src/rcp/watchers.py:1502-1585 | No other step, short of the generation's end, sets an owed pass back |
| `RetryWorker.SignalIsServed` | src/rcp/watchers.py:1529-1585 | In any interleaving a pass begins before the thread has taken five more steps of its own, unless its generation ends or it dies |
| `RetryWorker.SignalLeadsToAPass` | src/rcp/watchers.py:1529-1585 | From the call on: a signal begun while a generation is current is followed by a pass of it begun after the event was set, within five of the thread's own steps, unless the generation ends or the thread dies |
| `RetryWorker.WatcherRetryWorker.Start` | src/rcp/watchers.py:1502-1527 | Starting leaves a running worker alone, and otherwise retires the old thread and opens a generation |
| `RetryWorker.WatcherRetryWorker.BeginStop` | src/rcp/watchers.py:1535-1544 | Stopping ends the generation and retires the thread it takes |
| `RetryWorker.WatcherRetryWorker.EndStop` | src/rcp/watchers.py:1547-1552 | A stop forgets only the thread it took, and only once it has ended |
| `RetryWorker.WatcherRetryWorker.RunIfCurrent` | src/rcp/watchers.py:1568-1573 | Effects stay in the order of their generations: none runs after one of a later generation, and none of a generation that has ended |
| `RetryBackoff.BackoffBounds` | src/rcp/watchers.py:180-190 | The wait is at least one pass, at most a minute of passes, and never shrinks |
| `RetryBackoff.DueExactlyOnTime` | src/rcp/watchers.py:180-209 | A failing project is due at exactly its back-off's poll pass and from then on, whatever happens to others |
| `RetryBackoff.ClearedIsNeverDue` | src/rcp/watchers.py:192-195 | A cleared project is not due before it is scheduled again, and its count starts over |
| `RetryBackoff.GraphWatcherRetryRegistry.Due` | src/rcp/watchers.py:197-209 | The loop counts every project down and reports exactly the due ones |
| `Snapshots.StoredPairNeverDecreases` | src/rcp/projects.py:1726-1788 | The view stays secure exactly as long as no torn write leaves a generation above the committed ones unentered, and so long the stored revision and building generation never decrease |
| `Snapshots.OrderAtEveryMoment` | src/rcp/projects.py:1751-1786 | At every moment of every run, torn writes included, no offer can take the stored pair back if and only if the cached snapshot's generation is at most the committed one or the first, or only a later revision can win |
| `Snapshots.FinalRevisionIsTheMaximum` | src/rcp/projects.py:1751-1776 | The persisted revision is the maximum of the initial one and those offered, in any order |
| `Snapshots.CommittedIsTheMaximum` | src/rcp/projects.py:1783-1786 | The committed counter is the greatest generation committed |
| `Snapshots.NotTheGreatestPair` | src/rcp/projects.py:1768-1776 | A later generation of a revision can lose to one committed for an earlier revision |
| `Snapshots.TornWriteBreaksTheOrder` | src/rcp/projects.py:1778-1786 | Three steps from any start a torn write leaves its generation unentered, and the builder that reserved first puts its older view back |
| `Snapshots.FreshnessNeverGoesBack` | src/rcp/projects.py:1790-1808 | A freshness-only update keeps the stored revision; it replaces no later generation of it if and only if the cached snapshot's generation is not above its own, which holds unless a torn write came before; when the pair is the one it read only the freshness changes |
| `Snapshots.TornWriteLetsFreshnessGoBack` | src/rcp/projects.py:1790-1808 | After a torn write it can replace a later generation of its revision |
| `Snapshots.LateRefreshRevivesAnOldBody` | src/rcp/projects.py:1790-1808 | When the pair did change, it can bring an old body back |
| `Snapshots.SnapshotCache.ReserveGeneration` | src/rcp/projects.py:1810-1819 | Generations are handed out one by one per project |
| `Snapshots.SnapshotCache.Commit` | src/rcp/projects.py:1726-1788 | An offer is refused, superseded, failed or committed by the guards, in their order |
| `Dispatch.AtMostOneStart` | src/rcp/background.py:1179-1240 | Under any interleaving of launchers, failing starts, workers and crashes at most one thread is ever started per operation, and the two registries hold the same entries |
| `Dispatch.ThreadsAreRegistered` | src/rcp/background.py:1360-1389 | A live thread is the registered one of its operation, and the only one |
| `Dispatch.NotedFailureCanRetry` | src/rcp/storage/agent_tasks.py:3003-3075 | A start that failed and recorded it can be tried again |
| `Dispatch.BackgroundAgentTasks.SpawnRecord` | src/rcp/background.py:1187-1240 | The registries are filled before any launch work and emptied again when the thread does not start |
| `Dispatch.BackgroundAgentTasks.ForgetControl` | src/rcp/background.py:1837-1840 | Both registries lose the entry together |
| `SessionOwnership.SessionIsOwned` | src/rcp/background.py:1745-1766 | The walk ends on every parent graph, cycles included, and answers exactly whether a lineage leads to a task that began without a session and recorded one |
| `SessionOwnership.CyclesAreNotOwned` | src/rcp/background.py:1748-1766 | A task whose parents lead back to a task already passed has no lineage |
| `SessionOwnership.IngestSessionsAreOwned` | src/rcp/background.py:377-668 | In every store that start, checkpoint, resume and retry reach, each seed or refresh task with a session owns it |
| `SessionOwnership.BackgroundSessions.StartTask` | src/rcp/background.py:377-444 | An ingest task may not begin with a session |
| `SessionOwnership.BackgroundSessions.CheckpointTask` | src/rcp/storage/agent_tasks.py:2574-2617 | A session is recorded once and never replaced |
| `SessionOwnership.BackgroundSessions.ResumeTask` | src/rcp/background.py:446-486 | Only an owned session is resumed |
| `SessionOwnership.BackgroundSessions.RetryTask` | src/rcp/background.py:488-668 | A retry takes the session over only when it is owned and nothing stands against it; otherwise it begins with none |
| `StreamFold.Consume` | src/rcp/background.py:1579-1737 | Cutting the accumulators back at every event gives what one truncation of the whole stream gives: last updates, first messages, first distinct artifacts, last revision |
| `StreamFold.OneOutcome` | src/rcp/background.py:1579-1737 | A stream has exactly one outcome |
| `StreamFold.FirstOfEveryId` | src/rcp/background.py:1708-1714 | Artifacts are the first offered of every identity, each once |
| `StreamFold.PartialOutputIsAPrefix` | src/rcp/background.py:1608-1611 | What a failed or paused task keeps is a prefix of what the undisturbed stream would keep |
| `StreamFold.MessagesSaySomething` | src/rcp/background.py:1699-1707 | Kept messages are non-empty, begin with no white space and fit |
| `StreamFold.LatestIsTheLastKept` | src/rcp/background.py:1663-1673 | With list-form updates only, the update reported is the last one kept |
| `StartupFence.NothingPassesEarly` | src/rcp/background.py:126-149 | No effect passes and no callback runs before the fence opens, and a fence that opened had refused nothing |
| `StartupFence.OneAttemptClosesForGood` | src/rcp/background.py:126-142 | After one refused effect the fence never opens |
| `StartupFence.CallbacksRunOnce` | src/rcp/background.py:137-158 | Every callback runs exactly as often as it was registered, late registrations included |
| `StartupFence.StartupEffectFence.BeginRelease` | src/rcp/background.py:137-147 | The locked half of a release |
| `WebBuild.DecodeInverts` | src/rcp/server_runtime.py:246-255 | A decoder inverts the encoding of every file list |
| `WebBuild.EncodeInverts` | src/rcp/server_runtime.py:246-255 | The decoder accepts encodings only |
| `WebBuild.DifferentBundlesDiffer` | src/rcp/server_runtime.py:217-261 | Two accepted inspections that feed the hash the same bytes saw the same files |
| `WebBuild.AcceptedExactly` | src/rcp/server_runtime.py:217-261 | Exactly which listings are accepted |
| `WebBuild.SortedListingIsUnique` | src/rcp/server_runtime.py:223 | A bundle has one sorted listing, so one byte stream |
| `WebBuild.ListFiles` | src/rcp/server_runtime.py:226-243 | The first loop reports the first fault of the listing, or its files |
| `WebBuild.FeedContent` | src/rcp/server_runtime.py:251-256 | Reading in chunks feeds the whole content and counts it |
| `WebBuild.FeedFiles` | src/rcp/server_runtime.py:246-260 | The second loop feeds one frame per file, or reports the first that cannot be read whole |
| `WebBuild.WebBuildIdentity` | src/rcp/server_runtime.py:217-261 | The whole computation, with its failures in the source's order |
| `ChatBackup.BackupIsThePrefix` | src/rcp/service.py:432-467 | The output is a line-aligned prefix, and what follows is exactly what stopped the backup |
| `ChatBackup.PrefixIsUnique` | src/rcp/service.py:432-467 | Lines that make up a prefix, may all be yielded and are followed by an ending are what the backup yields |
| `ChatBackup.OneChat` | src/rcp/service.py:577-611 | Every record yielded belongs to one chat, kept where that chat belongs, and names only this project's operations |
| `ChatBackup.BackupOfABackup` | src/rcp/service.py:415-480 | Backing up a backup yields all of it |
| `ChatBackup.BackupsOnlyGrow` | src/rcp/service.py:415-480 | With more of the file and more operations known, a later backup begins with the earlier one |
| `ChatBackup.RestoreAcceptsTheBackup` | src/rcp/service.py:1065-1098 | Restore's checks accept what backup wrote |
| `ChatBackup.Step` | src/rcp/service.py:440-467 | One line is yielded exactly when it may be, and refused for the reason that applies |
| `ChatBackup.ReadLine` | src/rcp/service.py:436 | A bounded readline stops after the first newline or at the bound |
| `ChatBackup.IterBackupPrefix` | src/rcp/service.py:415-480 | The iterator's loop yields the specified lines and ending |
| `ChatBackup.RestoreCanonicalChat` | src/rcp/service.py:1065-1105 | A restore succeeds exactly when every expected byte comes back out of the iterator with the manifest's hash |
| `Attachments.SetsStayWhole` | src/rcp/attachments.py:160-337 | At every moment of a run, with failing disks, deaths of the process and migrations in between, each set's files are exactly the listed ones, unchanged, if and only if no call is stopped between its two writes on a set; and then the limits on number, size and total hold |
| `Attachments.InterruptedRemovalSpoilsTheSet` | src/rcp/attachments.py:308-372 | A removal cut off before its listing is written leaves a set that, whatever happens until it expires, lists a file it does not have and cannot be claimed |
| `Attachments.ClaimedUntilReleased` | src/rcp/attachments.py:339-384 | A claimed set keeps claimant, listing and files, through migrations too, until that claimant releases it or it expires |
| `Attachments.HeldSetsAreClosed` | src/rcp/attachments.py:218-384 | While one task holds a set nobody else claims, adds to, removes from or releases it |
| `Attachments.MigrationMovesTheProject` | src/rcp/attachments.py:160-216 | Preparing and applying moves every set of the old project and nothing else |
| `Attachments.InterruptedMigrationCompletes` | src/rcp/attachments.py:160-216 | Broken off after any rewrite and prepared again in any order, it reaches the state of an uninterrupted one |
| `Attachments.MigrationTouchesOnlyTheProject` | src/rcp/attachments.py:160-216 | At every moment other projects' sets, and all files, chats, clients and claims, are unchanged |
| `Attachments.PreparedAreMoves` | src/rcp/attachments.py:160-201 | What a preparation collects changes nothing but the project, so a migration applied later, to whatever the store has become, is a step of the runs |
| `Attachments.ChangedSetsAreNotOverwritten` | src/rcp/attachments.py:203-216 | A set that changed since it was prepared stops the migration and is kept |
| `Attachments.Verify` | src/rcp/attachments.py:445-467 | The check accepts exactly the intact sets |
| `Attachments.CopyUpload` | src/rcp/attachments.py:265-276 | Copying stops exactly when the file is too large |
| `Attachments.ChatAttachmentStore.SweepExpired` | src/rcp/attachments.py:426-443 | Exactly the stale directories go |
| `Attachments.ChatAttachmentStore.AddFile` | src/rcp/attachments.py:218-306 | An upload adds one listed file, or leaves no file behind |
| `Attachments.ChatAttachmentStore.RemoveFile` | src/rcp/attachments.py:308-337 | The file and its listing go, and an emptied set with them |
| `Attachments.ChatAttachmentStore.ClaimSet` | src/rcp/attachments.py:339-372 | Only an intact, unclaimed set of the right scope is claimed |
| `Attachments.ChatAttachmentStore.ReleaseSet` | src/rcp/attachments.py:374-384 | Only the claimant releases |
| `Attachments.ChatAttachmentStore.PrepareMigration` | src/rcp/attachments.py:160-201 | The loop refuses what it must or collects one rewrite per set of the project |
| `Attachments.ChatAttachmentStore.ApplyMigration` | src/rcp/attachments.py:203-216 | Each rewrite is made, passed over or stops the migration |
| `Timestamps.TextOrderIsTimeOrder` | challenge/gateway_state.py:531-532 | Text order is time order for every pair of moments, fraction or not |
| `Timestamps.SqlSelectsByTime` | challenge/gateway_state.py:227-231 | The comparison in SQL selects exactly the rows at or before the cutoff |
| `Timestamps.FirstRowIsTheOldest` | challenge/gateway_state.py:357-369 | The first row ordered by stamp is the oldest |
| `Timestamps.StampsAreFaithful` | challenge/gateway_state.py:531-532 | A stamp stands for one moment |
| `Timestamps.ParseInverts` | challenge/gateway_state.py:535-539 | Reading a stored stamp gives back its moment |
| `ExperimentControl.RelatedTargetsExactly` | src/rcp/control.py:442-449 | Related targets are in order, without repetition, and exactly the targets of an edge |
| `ExperimentControl.EdgeOrderDoesNotMatter` | src/rcp/control.py:442-449 | The order and repetition of edges make no difference |
| `ExperimentControl.ReasonsComeFromFacts` | src/rcp/control.py:295-371 | The gates consume nothing but the projected facts |
| `ExperimentControl.EqualFactsEqualReasons` | src/rcp/control.py:332-371 | Graphs with equal projections have equal gate reasons |
| `ExperimentControl.ReadyExactly` | src/rcp/control.py:295-318 | Exactly when no reason stands against running |
| `ExperimentControl.PreconditionReasons` | src/rcp/control.py:295-318 | The loops collect the reasons of every related node in order |
| `ExperimentControl.ControlDependencies` | src/rcp/control.py:332-371 | The projection's reasons, decisions and blockers |
| `ExperimentControl.DriftExactly` | src/rcp/control.py:167-194 | Drift reports every pin that no longer stands and no other |
| `ExperimentControl.DecisionDrift` | src/rcp/control.py:167-194 | The loop reports the drift |
| `ExperimentControl.GoverningDecisionBundle` | src/rcp/control.py:198-213 | The loop pins every decided, chosen governing decision |
| `ExperimentControl.FreshBundleStands` | src/rcp/control.py:167-213 | A bundle shows no drift against its own graph exactly when each pinned decision is kept under its own identity or has a twin there, decided alike; well-keyed graphs never drift |
| `ExperimentControl.MisKeyedGraphDrifts` | src/rcp/control.py:167-213 | A graph that keeps a decision under another identity drifts at once |

## Left out

- HTTP proxying, header rewriting, cookies, CSRF pages and coroutine cancellation in challenge/gateway.py: library-bound; a lease leaked by a response that is never iterated is outside the model.
- Real processes, sockets, ports and health reads: a process is alive or exited, its health is an input, and processes exit between locked blocks, or between the two polls of an acquire.
- ChildProcesses: a health read that raises an unhandled error while reaping, evicting or stopping, which ends that call with what it had done so far; and a process that outlives even being killed.
- StartOverIsSafe: says nothing of the trees that expiry, discarding and the request-limit branch (challenge/gateway.py:362-368) remove without a start-over; there a child may still run.
- Gateway: expiry, discarding and reaping happen at any moment with any arguments, rather than at the moments the routes choose; shutdown of the gateway.
- SetsStayWhole: a death in the middle of deleting a whole directory, and a sweep that cannot delete one, are not modelled; a directory that cannot be deleted keeps its metadata.
- Snapshots: deletion of the project, patch-log heads, cached files damaged from outside, and the write of a first snapshot when a project is registered (src/rcp/projects.py:1708-1724, called at 987), which replaces the cache without a generation and past the guards.
- AtMostOneStart: leaves out the restart of an episode report, which puts its task back in the queue on purpose (src/rcp/storage/episodes.py:1063-1085).
- Dispatch: the validation of the persisted request, admission receipts older than the current format, and rows that vanish, which the store never deletes.
- SessionOwnership: experiment, graph-repair and result-view recoveries, which concern chat tasks; retry feedback.
- StreamFold: usage records, receipts and progress messages written on the side; reading JSON is a parameter.
- StartupFence: a callback that raises and so keeps the later ones from running.
- RetryBackoff: the due projects are a set; the source returns them sorted.
- GraphWatchers: delivery of ready wakes, the shell poller, and the isolated evaluation used for compatibility; the project lock is what makes passes one at a time.
- RetryWorker: the callback's own work; a signal is one flag set on one event.
- ProjectOpening: the refusal to delete in team spaces, transfer retirement and the re-keying of in-memory maps; a new registration may appear at any moment.
- WebBuild: SHA-256, and file names that have no UTF-8 form; paths are compared as their UTF-8 bytes, which keeps the order of their characters.
- ChatBackup: reading a line as JSON, path layout and hashing are parameters; a file is rewritten only by appending while it is read, any other change being reported by the file's identity or size.
- Attachments: media types and signatures are one input; staging to a task and recovery inventories; hashes stand for contents.
- Timestamps: conversion from other zones, and other spellings the parser would accept.
- ExperimentControl: the operational reasons of a live loop, flow projection and watcher admission, which only combine what is proved here with inputs.
- Integer widths: the source is Python, whose integers are unbounded, as here.
