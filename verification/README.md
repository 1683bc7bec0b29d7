# Heronry core: a verified model

This project models the parts of the repository where state, concurrency and recovery meet, and proves
what they promise. Run `dafny verify dfyconfig.toml` to check it.

| module | what it models |
|---|---|
| `PauseProtocol` | one target pid: the pool's suspend and resume calls, the watchdogs and their shared run token, as single steps with a pool crash possible between any two |
| `Proctree` | the suspend counts of a whole machine whose process table changes between any two actions: probe, sweep, rollback, token, resume, and a record of every signal and watchdog launch |
| `Descendants` | the process-tree worklist, the survivors of a list, the greedy subsequence test |
| `InboxStore` | inbox files shared by recipients, torn and splitting lines, aliases, cursor reads, against one global log |
| `AppendSteps` | the append transaction as steps of many threads, with restarts and cut-short writes |
| `EventStream` | one client of the event stream: partial reads, dropped connections, reconnects by cursor, other publishers' writes, whole or cut short |
| `StreamHub` | the wake flags of all keys, streams that connect and close under any names, an alias map, the keep-alive timeout |
| `ChannelStore` | the channel registry: one merge in place, and load and write as steps of many threads |
| `Shadow` | the shell shadow: ledger, numbering, bounded redelivery queue, command file, supervision tick, and a record of what the outside answered |
| `ShadowOrder` | in which order the frames of a shadow's history reach the console |
| `ShadowDeath` | shadows that die before a ledger write, and the numbers their successors give |
| `ShadowCommands` | what a run of commands does to a shadow, and from the command file to the commands |
| `PoolConfig` | the settings merge in place, seeding, the stamp, and a crash between file and stamp |
| `PoolHooks` | what the settings merge means for the commands that hooks run |
| `Prereqs` | the shipped manifest, the install plan, the step runner |
| `ParityOracle` | the Codex trace capture, reminder block splitting, the case filter |
| `ParityRows` | the captured and the filtered trace told from the mirrored messages |
| `BoundedRun` | waits against a clock, stopping a tree, the bounded runner |
| `CompositeSpawner` | stacked spawner backends as one list of leaves |
| `Options`, `Sets` | optional values, results, walking through a set |

Concurrency is modelled by step machines: a state, labels, `Possible` runs, and statements about every run.
Objects whose methods change their fields are classes; what a method does is stated as its whole new state or
tied to a function whose properties are lemmas. Every lemma switches Dafny's automatic induction
off, so a proof uses no more than what it says.

## Where the code and its text differ

The model follows the code. These differences are proved, most of them as the exact condition.

- Pause: a frozen tree is always watched if and only if no token is written while a watchdog has read its own
  id in `disarm` and will unlink, no suspend starts on a mixed tree, no deadline passes before the suspend it
  belongs to has verified, and the root stays alive (`AlwaysWatchedExactly`). A watchdog leaves later freezes
  alone if and only if no token is written while it has decided to fire and may still resume
  (`NeverThawsLaterExactly`); what a late thaw leaves suspended is still watched.
- Resume: a process orphaned by the death of its parent between suspend and resume stays suspended while the
  token is released (`OrphanStaysSuspended`, `ResumeQuietsExactly`). A resume of a root that is gone reports
  success and releases the token without resuming anything.
- Broker: a torn tail swallows the next append, and a text with a character that splits lines is never
  readable (`Append` says exactly when a message can be read). When a message was handed to a stream before
  its newline was written, the next publisher's line lands on it and no reader sees either again
  (`HandedOverThenGone`); over any run a stream's client stays on a prefix of what it is owed exactly when that
  does not happen (`StaysOnPrefixExactly`). An alias registered later hides older mail (`PutAlias`, `PlacedExactly`).
- Hub: its comment says that a notify is not lost. It is not, in any run of streams that connect and close,
  if and only if each key that a publish can reach has one open stream at a time and has its flag set by
  every name that reaches it (`NoLostWakeExactly`). Two streams on one key lose a wake (`SharedFlagLoses`),
  also when the older one is only being torn down (`LateCloseLoses`), and so does a stream that listens under
  one alias when the message is sent to another (`AliasSleepsOn`). Such a stream sleeps on the announced
  message until its keep-alive, and no longer (`WaitEnds`).
- Shadow: a driver stopped because its shell crashed is armed again by the next tick in auto mode
  (`SuperviseDriver`, `Tick`). A new shadow applies the whole command file again and forgets that it was
  silenced (the constructor). A line that is JSON but no object, or a pace that is no number, drops the rest
  of its batch (`ApplyLines`). A chunk that ends inside a line splits that command
  (`CutBetweenLinesExactly`). When more frames fail while one is redelivered, the pop can throw away a frame
  that was never typed (`PopTakesTypedFrameExactly`). Line `#0` is typed by every start and is outside the
  numbered frames.
- Shadow order: a comment of the tick says that deferred frames go out in order. The console is in order if
  and only if no event was typed at once past a waiting frame that was redelivered later
  (`InOrderExactly`); `NewerFrameFirst` is a history where one was.
- Shadow numbers: a shadow that dies between numbering an event and writing its ledger makes its successor
  give the number again (`MidStepDeathReusesNumber`). Numbers are distinct if and only if no successor that
  attached to a ledger which was behind numbered an event (`NumbersDistinctExactly`).
- Settings: a seeded file needs no upgrade if and only if the first template group of each matcher runs all
  that later groups of it run (`SeedNeedsNoUpgradeExactly`).
- Bounded runner: "timeout plus about a second" is the timeout, the grace rounded up to polls and four
  seconds, and that is reached when nothing ends (`RunBounded`).
- Parity: a steer whose text does not start with the reminder marker is shown with one, and a doubled marker
  loses one (`RejoinExactly`).
- Planner: an installer is started although something it needs was left for a person to install, whatever
  the installers do, unless the missing needs of every wanted installable tool are installable themselves
  (`NeedsMetExactly`). With the shipped manifest it happens to root on a Linux machine without `apt-get` who
  asks for codex: npm counts as available and node has only a page to read (`NeedMayBeLeft`).

## Model

| member | source | states |
|---|---|---|
| PauseProtocol.RunKeepsInv | edp-pool/src/edp_pool/proctree.py:242-383 | the inductive invariant of the protocol holds after every run of suspend and resume calls, watchdog steps and pool crashes that respects four rules about the surroundings |
| PauseProtocol.SuspendCall | edp-pool/src/edp_pool/proctree.py:300-345 | a suspend call on a running tree of any size, with nothing in its way, suspends every process once under a new token that names a waiting watchdog |
| PauseProtocol.AdoptCall | edp-pool/src/edp_pool/proctree.py:267-298 | a suspend call on a frozen tree without a token writes one that names a waiting watchdog, and signals nothing |
| PauseProtocol.KeepCall | edp-pool/src/edp_pool/proctree.py:267-283 | a suspend call on a frozen tree with a token changes nothing |
| PauseProtocol.UnwatchableCall | edp-pool/src/edp_pool/proctree.py:300-322 | a suspend call whose watchdog cannot be launched signals nothing and takes its token back |
| PauseProtocol.RollBackCall | edp-pool/src/edp_pool/proctree.py:326-342 | a sweep that does not measure frozen is undone and its token is gone |
| PauseProtocol.ResumeCall | edp-pool/src/edp_pool/proctree.py:348-383 | a resume call, whatever the counts, lowers each once and releases the token unless the tree still reads frozen |
| PauseProtocol.SuspendThenResumeCall | edp-pool/src/edp_pool/proctree.py:242-383 | the two calls, with nothing in their way, undo each other |
| PauseProtocol.AlwaysWatchedExactly | edp-pool/src/edp_pool/pause_watchdog.py:88-202 | in every reachable state a frozen tree has a token that names a waiting or firing watchdog, if and only if those four rules hold, whether or not late watchdogs thaw later freezes |
| PauseProtocol.CalmUnlinksNeeded | edp-pool/src/edp_pool/pause_watchdog.py:110-128 | a concrete run in which an old watchdog's read-then-unlink removes a newer freeze's token |
| PauseProtocol.CleanStartNeeded | edp-pool/src/edp_pool/proctree.py:300-345 | a concrete run: crash half way through a sweep, suspend again, resume once; a process stays suspended without a token |
| PauseProtocol.TimelyNeeded | edp-pool/src/edp_pool/pause_watchdog.py:195-202 | a concrete run in which the deadline passes during the sweep and the tree ends frozen and unwatched |
| PauseProtocol.RootStaysNeeded | edp-pool/src/edp_pool/proctree.py:362-369 | a concrete run in which the root dies and the token is released over suspended descendants |
| PauseProtocol.NeverThawsLaterExactly | edp-pool/src/edp_pool/pause_watchdog.py:88-107 | a watchdog armed for one freeze never resumes a later one if and only if no token is written while a watchdog has decided to fire and may still resume |
| PauseProtocol.LateThaw | edp-pool/src/edp_pool/pause_watchdog.py:195-232 | a concrete run in which a watchdog that has decided to fire thaws the next freeze |
| PauseProtocol.BudgetStep | edp-pool/src/edp_pool/pause_watchdog.py:195-202 | once the pool is dead no step raises the time-then-steps measure and every progress step lowers it |
| PauseProtocol.ProgressPossible | edp-pool/src/edp_pool/pause_watchdog.py:195-202 | while the tree is frozen a progress step can always be taken |
| PauseProtocol.EveryFreezeEnds | edp-pool/src/edp_pool/pause_watchdog.py:195-232 | under the four rules the pool may die at any point of any run; after as many progress steps as the measure says nothing is suspended |
| Proctree.Machine.ProbeThread | edp-pool/src/edp_pool/proctree.py:70-103 | the probe reports the count a readable thread had and leaves every count as it was |
| Proctree.Machine.ProcessFreezeState | edp-pool/src/edp_pool/proctree.py:106-131 | the loop of probes gives the reading of the process's thread counts and changes nothing |
| Proctree.ClassifyExactly | edp-pool/src/edp_pool/proctree.py:106-131 | frozen, running, mixed and unknown from the set of readable suspend counts |
| Proctree.VerdictExactly | edp-pool/src/edp_pool/proctree.py:174-223 | the verdict on a tree from the set of its readings other than gone |
| Proctree.Machine.TreePids | edp-pool/src/edp_pool/proctree.py:134-147 | exactly the processes of the tree, without duplicates, root first |
| Proctree.Machine.ObserveTreeState | edp-pool/src/edp_pool/proctree.py:174-223 | each reading is that of its process in some table between the call and the return; a frozen verdict on a uniform machine means the whole tree under the same root is seen to be stopped now |
| Proctree.Machine.ObserveRecorded | edp-pool/src/edp_pool/proctree.py:174-223 | with a recorded start, a pid that names another process is answered unknown without a single probe; otherwise the verdict is that of the tree |
| Proctree.FingerprintIdentifiesExactly | edp-pool/src/edp_pool/proctree.py:150-171 | a recorded process passes the check later exactly when it is still that process or its pid names one started since within the tolerance; once the record is older than the tolerance, exactly when it is that process |
| Proctree.Machine.SuspendAll | edp-pool/src/edp_pool/proctree.py:226-239 | every pid of the list is signalled, in order; from a quiet machine only processes of the list end up suspended, and once each |
| Proctree.Machine.ResumeAll | edp-pool/src/edp_pool/proctree.py:226-239 | every pid of the list is signalled, last first; from a uniform machine exactly the suspended processes outside the list that still live stay suspended |
| Proctree.Machine.Arm | edp-pool/src/edp_pool/pause_watchdog.py:150-192 | one watchdog is launched; either it landed outside, the token names the run and the watchdog is armed, or it did not and neither remains |
| Proctree.Machine.Disarm | edp-pool/src/edp_pool/pause_watchdog.py:110-128 | the token goes exactly when it names this run, or no run is given |
| Proctree.Machine.FreezeOrUndo | edp-pool/src/edp_pool/proctree.py:326-342 | a sweep that does not measure frozen is undone: a quiet machine is quiet again |
| Proctree.Machine.AdoptFreeze | edp-pool/src/edp_pool/proctree.py:267-298 | an already frozen tree keeps its token, or gets a fresh one with an armed watchdog, or is refused with the token as it was |
| Proctree.Machine.FreshFreeze | edp-pool/src/edp_pool/proctree.py:300-345 | the watchdog is armed before the sweep; what is signalled is the tree of the table the call began with; on success the whole tree is stopped under its token, on refusal nothing is suspended |
| Proctree.Machine.SuspendTree | edp-pool/src/edp_pool/proctree.py:242-345 | a pid that does not name the recorded process is refused with nothing done; every other refusal has its reason (the process exited, a launch that missed, a sweep that did not measure frozen) and the signals are exactly those of its answer, root first and undone root last; from a quiet machine ok means the whole tree is seen to be stopped, and a refusal leaves all counts 0 and no token of this run |
| Proctree.Machine.ResumeTree | edp-pool/src/edp_pool/proctree.py:348-383 | with changes before every action, what stays suspended is exactly what was suspended before the call, lives, and is outside the re-enumerated tree; the token goes unless the tree still reads frozen |
| Proctree.Machine.SuspendThenResume | edp-pool/src/edp_pool/proctree.py:242-383 | the two calls with the machine changing in and between them: a refused suspend leaves it quiet, a successful one lasts until the resume; after the resume every count is zero if each pid of the suspended tree still names a process that old, and in any case exactly when every suspended process that lives was enumerated again; a root that is gone leaves all as it was; only this token is gone |
| Proctree.WholeTree | edp-pool/src/edp_pool/proctree.py:174-223 | if every measured process is stopped, the tree of a later table holds no process that was not measured |
| Proctree.ResumeQuietsExactly | edp-pool/src/edp_pool/proctree.py:371-383 | a resume leaves the machine quiet if and only if every suspended process that lives on is in the tree as re-enumerated |
| Proctree.TreeHoldsTogether | edp-pool/src/edp_pool/proctree.py:134-147 | a suspended tree none of whose processes died is still one tree under its root |
| Proctree.SuspendResumeIdentity | edp-pool/src/edp_pool/proctree.py:242-383 | from the enumerated table of a suspend to the end of a resume: all counts are zero again when no process of the tree died in between |
| Proctree.OrphanStaysSuspended | edp-pool/src/edp_pool/proctree.py:371-383 | a chain of three is suspended and its middle process killed: no resume of the root reaches the suspended orphan |
| Descendants.Collect | v8/scripts/drill_codex_seat.py:482-497 | exactly the processes other than the root that a chain of edges reaches, each once, also with parent cycles |
| Descendants.ClosedHoldsPath | v8/scripts/drill_codex_seat.py:482-497 | a set with the root that is closed under edges holds everything reachable from it |
| Descendants.ReachedExactly | v8/scripts/drill_codex_seat.py:482-497 | a process is reached exactly when it names a reached process as its parent and is not older than it |
| Descendants.ReachedIsYounger | v8/scripts/drill_codex_seat.py:482-497 | nothing that is reached is older than the root |
| Descendants.Alive | v8/scripts/drill_codex_seat.py:500-503 | the members whose pid still has the same creation time, each once, in their order |
| Descendants.Subsequence | v8/scripts/drill_codex_seat.py:506-508 | the greedy shared-iterator test is right: yes exactly when some increasing positions match |
| InboxStore.WrittenGoods | edp-broker/src/edp_broker/store.py:210-235 | what a write, whole or cut short, leaves readable: a missing newline costs the new message and the line it lands on |
| InboxStore.WriteLogged | edp-broker/src/edp_broker/store.py:198-216 | one write, whole or cut short, keeps every file's readable messages equal to that file's part of the global log |
| InboxStore.SharingInvisible | edp-broker/src/edp_broker/store.py:20-28 | with every message in the file its destination reads, a shared file gives a recipient the same mail as the whole log |
| InboxStore.SharedFileExactly | edp-broker/src/edp_broker/store.py:20-28 | two names share a file exactly when they differ only in colons and underscores |
| InboxStore.SafeStaysInside | edp-broker/src/edp_broker/store.py:13-28 | the file name of a valid recipient holds no separator and cannot lead out of the directory |
| InboxStore.PlacedExactly | edp-broker/src/edp_broker/store.py:218-248 | every read, of any name from any time, gives all its mail if and only if every message lies in the file its destination reads |
| InboxStore.PutKeepsFile | edp-broker/src/edp_broker/store.py:198-216 | stamping past the tail keeps a file's times strictly increasing whatever part of the line reaches the disk |
| InboxStore.Inboxes.TailOf | edp-broker/src/edp_broker/store.py:181-196 | the cached or re-read tail is at least the time of every readable message of the file |
| InboxStore.Inboxes.Put | edp-broker/src/edp_broker/store.py:198-216 | the stamp is past every message of the file, moves a time only forward, and the log and the files change by this write alone |
| InboxStore.Inboxes.Append | edp-broker/src/edp_broker/store.py:198-216 | a refused recipient changes nothing; otherwise the message is readable if and only if the file ended in a newline and its text does not split |
| InboxStore.Inboxes.AppendAndDie | edp-broker/src/edp_broker/store.py:181-216 | a death in the middle of an append, with any part of the line written and the cache lost, keeps all invariants |
| InboxStore.Inboxes.PutAlias | edp-broker/src/edp_broker/store.py:54-70 | after an alias is added later every read still gives all its mail exactly when the mail sent to that name lies in the file the name now leads to |
| InboxStore.Inboxes.Read | edp-broker/src/edp_broker/store.py:218-248 | a read equals the global append order filtered by destination and cursor, with strictly increasing times |
| InboxStore.SelectIncreasing | edp-broker/src/edp_broker/store.py:218-248 | filtering keeps the times increasing |
| AppendSteps.RunKeepsInv | edp-broker/src/edp_broker/store.py:175-216 | the lock, cache and file invariant holds after every run of concurrent appends, restarts and cut-short writes |
| AppendSteps.UnlockedTies | edp-broker/src/edp_broker/store.py:169-176 | without the lock two threads stamp the same time in one file |
| AppendSteps.IncreasingExactly | edp-broker/src/edp_broker/store.py:169-216 | the times of every file strictly increase in every run if and only if the transaction takes the lock |
| EventStream.SelectAfter | edp-broker/src/edp_broker/store.py:210-248 | reading after the time of the n-th owed message skips exactly the first n |
| EventStream.PassReads | edp-broker/src/edp_broker/service.py:259-279 | with any prefix of the file visible, one pass reads exactly the next messages the client lacks |
| EventStream.Stream.HandOver | edp-broker/src/edp_broker/service.py:259-279 | the messages yielded before a drop are the front of the batch and the cursor names the last of them |
| EventStream.Stream.Pass | edp-broker/src/edp_broker/service.py:259-279 | the pass is that event of the run; after any pass, with any part seen, torn line and dropped connection, the client is still on a prefix, and has all it is owed when the pass saw and sent everything |
| EventStream.StaysOnPrefixExactly | edp-broker/src/edp_broker/service.py:259-279 | over every run of publishes, whole or cut short, passes, drops and reconnects the client is always on a gap-free, duplicate-free prefix of what it is owed if and only if no write lands on an unterminated line whose message it has been handed |
| EventStream.Stream.Publish | edp-broker/src/edp_broker/store.py:198-216 | the write is that event of the run, and from a prefix it leads off it exactly in that case |
| EventStream.HandedOverThenGone | edp-broker/src/edp_broker/store.py:210-216 | a message without its newline is owed; after the next publish neither is |
| StreamHub.RunKeepsInv | edp-broker/src/edp_broker/service.py:53-80 | the flag invariant holds after every run of publishes, reads, waits, wakes, timeouts, connects and closes |
| StreamHub.SharedFlagLoses | edp-broker/src/edp_broker/service.py:70-80 | where two streams may be open on a key, a concrete run parks one of them on an announced message |
| StreamHub.LateCloseLoses | edp-broker/src/edp_broker/service.py:70-80 | the same when the first stream is closed while it waits: its cancelled wait clears the flag of the second |
| StreamHub.AliasSleepsOn | edp-broker/src/edp_broker/service.py:116-131 | when a publish reaches a stream whose key it does not notify, a concrete run leaves that stream parked on the announced message |
| StreamHub.NoLostWakeExactly | edp-broker/src/edp_broker/service.py:53-131 | for any alias map and any limit on the streams open per key, no wake is lost in any run, and no stream sleeps on an announced message until its keep-alive, if and only if each key a publish can reach is limited to one stream and is notified by every name that reaches it |
| StreamHub.OneListenerExactly | edp-broker/src/edp_broker/service.py:53-80 | on one plain name no wake is lost if and only if at most one stream listens at a time |
| StreamHub.WaitEnds | edp-broker/src/edp_broker/service.py:259-279 | from any reachable state with a parked stream, every run past its keep-alive ends that wait, and by then the stream is closed, is about to read, or has read all that had been appended |
| StreamHub.ResolvedNamesAreHeard | edp-broker/src/edp_broker/service.py:116-131 | with one stream at a time per key, and keys that resolve to themselves, no wake is lost in any run, whatever aliases are used to publish |
| ChannelStore.NewRow | edp-broker/src/edp_broker/store.py:122-142 | the members of a merged row are the old ones and the real names added, less those removed, sorted without duplicates |
| ChannelStore.Channels.Merge | edp-broker/src/edp_broker/store.py:122-142 | an invalid name is refused with nothing changed; otherwise merging in place gives that row and leaves every other channel untouched |
| ChannelStore.SortedUnique | edp-broker/src/edp_broker/store.py:122-142 | a set of names has one sorted listing |
| ChannelStore.UnlockedErases | edp-broker/src/edp_broker/store.py:95-142 | without the lock one thread's write erases another's registration |
| ChannelStore.SerialExactly | edp-broker/src/edp_broker/store.py:95-142 | every interleaving of merges ends in the deltas applied one after another in lock order, if and only if the lock is taken |
| ChannelStore.LastWordDecides | edp-broker/src/edp_broker/store.py:122-142 | membership after any series of deltas is decided by the last delta that names the member, so no registration is lost |
| Shadow.EnqueueAllKeepsNewest | edp-pool/src/edp_pool/shadow.py:231-258 | after any failures the queue is the newest twenty of what was queued |
| Shadow.PopTakesTypedFrameExactly | edp-pool/src/edp_pool/shadow.py:269-279 | the frame popped after a redelivery is the frame typed if and only if the queue did not overflow meanwhile |
| Shadow.CutBetweenLinesExactly | edp-pool/src/edp_pool/shadow.py:320-336 | two chunks give the lines of the whole file, broken at any line separator, if and only if the cut lies between lines |
| Shadow.ChunksCompose | edp-pool/src/edp_pool/shadow.py:320-336 | draining at line ends applies the commands of the whole file, each once, in order |
| ShadowCommands.OneLine | edp-pool/src/edp_pool/shadow.py:320-336 | a text without a break is one line and a break ends it, which with the concatenation of whole lines fixes the lines of any text |
| ShadowCommands.CommandPlaces | edp-pool/src/edp_pool/shadow.py:320-336 | the commands of a batch are those of the lines that hold one, each once, in order |
| ShadowCommands.PrefixExactly | edp-pool/src/edp_pool/shadow.py:320-336 | a batch is applied up to its first line that is no object or asks for a pace that is no number |
| ShadowCommands.ModeAfter | edp-pool/src/edp_pool/shadow.py:338-362 | after any run of commands the shadow is silenced if and only if some silence is followed by no resume, or it was silenced and nothing resumes it; restarts grow by the number of rearms |
| ShadowCommands.DriverAfter | edp-pool/src/edp_pool/shadow.py:338-362 | the driver runs if and only if there is one to arm and some command that arms it is followed by no silence, or it ran and nothing stops it |
| ShadowCommands.PaceAfter | edp-pool/src/edp_pool/shadow.py:338-362 | the heartbeat is the last pace that is not zero |
| ShadowCommands.SpecAfter | edp-pool/src/edp_pool/shadow.py:338-362 | every spec that was there or is observed is in the spec, once each and in order |
| Shadow.HistoryConserves | edp-pool/src/edp_pool/shadow.py:223-279 | over every history of a handle and its successive shadows: every frame is typed, pending, dropped by the bound or lost with a shadow; the queue is a suffix of the failed frames, at most twenty, in increasing numbers; each event takes the next number |
| Shadow.TypedOnce | edp-pool/src/edp_pool/shadow.py:223-279 | conservation over increasing numbers means no number is typed twice |
| ShadowOrder.NewerFrameFirst | edp-pool/src/edp_pool/shadow.py:269-279 | a history in which a newer frame reaches the console before one that waited |
| ShadowOrder.InOrderExactly | edp-pool/src/edp_pool/shadow.py:231-279 | over every history, the console shows frames in the order of their numbers if and only if no event was typed at once past a waiting frame that was redelivered later, and if and only if no redelivery goes back behind the frame typed last |
| ShadowOrder.TypingWhenNothingWaits | edp-pool/src/edp_pool/shadow.py:231-279 | events typed at once only while nothing waits keep the console in order |
| ShadowDeath.MidStepDeathReusesNumber | edp-pool/src/edp_pool/shadow.py:150-169 | an event is typed, the shadow dies before its ledger write, and its successor types another event under the same number |
| ShadowDeath.NumbersDistinctExactly | edp-pool/src/edp_pool/shadow.py:133-169 | over every run of operations, ledger writes and deaths, event numbers are distinct if and only if no successor that attached to a ledger which was behind numbered an event |
| ShadowDeath.TimelyLedgerHidesDeaths | edp-pool/src/edp_pool/shadow.py:133-169 | when every successor finds its predecessor's last number in the ledger, the traffic is that of whole steps and no number is typed twice |
| Shadow.ShellShadow.constructor | edp-pool/src/edp_pool/shadow.py:93-142 | a successor continues numbering and restart count from the ledger; mode, queue and command position start afresh |
| Shadow.ShellShadow.FrameAndSend | edp-pool/src/edp_pool/shadow.py:223-253 | a frame takes the next number and is tried on the console once; it is typed or queued, recorded as one step of the history |
| Shadow.ShellShadow.OnEvent | edp-pool/src/edp_pool/shadow.py:231-258 | each event takes exactly one number; in auto mode it becomes a frame exactly when the shell, asked once, is alive; nothing is typed or queued while silenced, and the ledger equals memory |
| Shadow.ShellShadow.Redeliver | edp-pool/src/edp_pool/shadow.py:269-279 | queued frames are typed in order and none is lost; it stops only when none is left, the shell is found dead or a frame fails |
| Shadow.ShellShadow.SuperviseDriver | edp-pool/src/edp_pool/shadow.py:280-286 | the driver, asked once, is armed again and counted exactly when it is not alive |
| Shadow.ShellShadow.ApplyCmd | edp-pool/src/edp_pool/shadow.py:338-362 | one command changes mode, driver, restarts, spec and pace as its verb says, and the ledger equals memory; a pace that is no number raises and changes nothing |
| Shadow.ShellShadow.ApplyLines | edp-pool/src/edp_pool/shadow.py:320-336 | the commands up to the first line that is JSON but no object, or a pace that is no number, are applied in order, and it raises exactly when there is one |
| Shadow.ShellShadow.DrainCmds | edp-pool/src/edp_pool/shadow.py:320-336 | only new text is read, its commands are applied once each in file order, and reading at line ends keeps the shadow up to date |
| Shadow.ShellShadow.ActAlone | edp-pool/src/edp_pool/shadow.py:269-305 | the autonomous half of a tick beats exactly when the heartbeat is due and spends one number on it |
| Shadow.ShellShadow.Tick | edp-pool/src/edp_pool/shadow.py:269-318 | after every tick the ledger equals memory; it raises exactly when a command line does; nothing is typed while silenced; a shell is called crashed exactly when, asked last, it is dead; a new crash stops the driver, and without new commands the next tick arms it again and counts it exactly in auto mode with a driver to arm |
| Shadow.ShellShadow.Close | edp-pool/src/edp_pool/shadow.py:365-371 | closing stops the driver and the loop and records it |
| Shadow.StepBoundarySettles | edp-pool/src/edp_pool/shadow.py:144-169 | between two steps the ledger holds all that a successor's numbering needs |
| PoolConfig.ExtendedTwice | edp-pool/src/edp_pool/pool_config.py:113-119 | adding a group's missing hooks to an entry twice is adding them once |
| PoolConfig.ExtendedStaysComplete | edp-pool/src/edp_pool/pool_config.py:113-119 | another group's hooks never make a complete entry incomplete |
| PoolConfig.MergeGroupsSatisfies | edp-pool/src/edp_pool/pool_config.py:106-119 | after the groups of an event are merged every one of them is satisfied |
| PoolConfig.MergeGroupsGrow | edp-pool/src/edp_pool/pool_config.py:106-119 | each old group keeps its place and matcher with its own hooks first |
| PoolConfig.AddHooks | edp-pool/src/edp_pool/pool_config.py:113-119 | the loop over hooks gives the extended entry and reports nothing exactly when nothing changed |
| PoolHooks.HookTailExactly | edp-pool/src/edp_pool/pool_config.py:82-87 | what hooks are compared by is the command without an interpreter in quotes in front of it, and the command itself when there is none |
| PoolHooks.AnyInterpreter | edp-pool/src/edp_pool/pool_config.py:82-87 | an interpreter whose path holds no quote and starts with no blank is left out, whichever it is |
| PoolHooks.HooksArrive | edp-pool/src/edp_pool/pool_config.py:102-163 | after a merge, in every event whose list is a list or absent, the first entry of a template group's matcher runs each of the group's commands, under some interpreter or none |
| PoolHooks.AddedAreNew | edp-pool/src/edp_pool/pool_config.py:113-119 | a hook that is added to an entry runs what none of the entry's own hooks ran |
| PoolConfig.MergeList | edp-pool/src/edp_pool/pool_config.py:106-119 | the loop over groups gives the merged list and reports nothing exactly when all groups were satisfied |
| PoolConfig.MergeEvents | edp-pool/src/edp_pool/pool_config.py:102-119 | the loop over events brings each to the template, raises exactly when one breaks, and reports nothing exactly when all were done |
| PoolConfig.Settings.DropRetired | edp-pool/src/edp_pool/pool_config.py:94-97 | exactly the retired keys the template no longer sets are dropped |
| PoolConfig.Settings.AddKeys | edp-pool/src/edp_pool/pool_config.py:98-101 | exactly the missing top-level keys are added |
| PoolConfig.Settings.Merge | edp-pool/src/edp_pool/pool_config.py:90-120 | the merge in place gives the merged file or raises, and reports nothing exactly when the file was up to date |
| PoolConfig.MergeIdempotent | edp-pool/src/edp_pool/pool_config.py:90-120 | a second merge of the same template reports nothing and changes nothing |
| PoolConfig.UpToDateMergesToItself | edp-pool/src/edp_pool/pool_config.py:90-120 | a merge with nothing to report at most adds empty places for hooks |
| PoolConfig.OwnerKept | edp-pool/src/edp_pool/pool_config.py:90-120 | every value but the retired pins stays, missing keys come from the template, and every group and hook list of the owner is kept in front |
| PoolConfig.SeedNeedsNoUpgradeExactly | edp-pool/src/edp_pool/pool_config.py:47-120 | a freshly seeded file has nothing to merge if and only if in every event the first group of each matcher runs all that later groups of it run |
| PoolConfig.ConfigDir.SeedThenUpgrade | edp-pool/src/edp_pool/pool_config.py:47-163 | a missing file is seeded and then upgraded: nothing raises, the stamp is set, and the seeded file is reported unchanged exactly under that condition |
| PoolConfig.ConfigDir.Upgrade | edp-pool/src/edp_pool/pool_config.py:123-163 | the file is merged once per digest; nothing due, missing or unreadable changes nothing; an exception leaves file and stamp |
| PoolConfig.ConfigDir.UpgradeDieAndRerun | edp-pool/src/edp_pool/pool_config.py:148-163 | a crash between file and stamp and a rerun: nothing is reported, the file stays as first written, the stamp is set |
| PoolConfig.ConfigDir.EditThenUpgrade | edp-pool/src/edp_pool/pool_config.py:123-163 | what the owner removes after an upgrade stays removed until the digest changes |
| Prereqs.ShippedManifestIsGood | edp-contracts/src/edp_contracts/prereqs.py:95-214 | the shipped manifest has distinct names, the default harness, and dependencies that come earlier and have none |
| Prereqs.AtLeastIs | edp-contracts/src/edp_contracts/prereqs.py:293-296 | a version will do exactly when no component, written or not, is the first to differ and smaller |
| Prereqs.PicksFirstUsable | edp-contracts/src/edp_contracts/prereqs.py:435-482 | a tool is installable exactly when some recipe's manager is on the machine, and the first such recipe is picked |
| Prereqs.ShippedInstallableExactly | edp-contracts/src/edp_contracts/prereqs.py:95-482 | which shipped tools can be installed on which machine |
| Prereqs.PlanIs | edp-contracts/src/edp_contracts/prereqs.py:562-633 | for a detected machine planning never raises, and the plan is the wanted tools that can be installed, the others wanted, and the rows reported |
| Prereqs.InstallsOnlyWhatIsMissing | edp-contracts/src/edp_contracts/prereqs.py:562-616 | every step is a missing, wanted tool with a recipe that works here; steps follow the manifest, each once |
| Prereqs.StepsExactly | edp-contracts/src/edp_contracts/prereqs.py:351-616 | from what is found and what is asked for: a tool is installed if and only if it does not do, can be installed, and is asked for or needed by a missing installable tool that is asked for |
| Prereqs.LeftExactly | edp-contracts/src/edp_contracts/prereqs.py:351-633 | and it is left to a person if and only if it does not do, is not installed, and is wanted, or is neither optional here nor a harness where one comes nor an embedder opted out of |
| Prereqs.EachRowOnce | edp-contracts/src/edp_contracts/prereqs.py:562-633 | no row is in both lists, none twice, and a row is in one of them exactly when it is not installed and wanted, or neither off nor excused |
| Prereqs.DependenciesFirst | edp-contracts/src/edp_contracts/prereqs.py:591-600 | every missing dependency of a step is an earlier step or is left to a person |
| Prereqs.NothingRequiredIsForgotten | edp-contracts/src/edp_contracts/prereqs.py:415-633 | from detection to plan: every required tool and every default one not opted out of is good, planned or reported, and so is the default harness when none is good |
| Prereqs.InsertDependencies | edp-contracts/src/edp_contracts/prereqs.py:592-598 | the insertions add exactly the missing dependencies of the asked tools that can be installed |
| Prereqs.BuildPlan | edp-contracts/src/edp_contracts/prereqs.py:562-633 | the lists and loops give the plan that the set description defines, or raise on the same inputs |
| Prereqs.RunSteps | edp-contracts/src/edp_contracts/prereqs.py:702-734 | the loop gives the exit codes and the started installers of the step by step description |
| Prereqs.EachStepOnce | edp-contracts/src/edp_contracts/prereqs.py:702-734 | one exit code per step; an installer is started exactly when no earlier step it needs failed or was skipped |
| Prereqs.InstallersFindTheirNeeds | edp-contracts/src/edp_contracts/prereqs.py:562-734 | in a planned run a started installer finds each need installed before, installed by an earlier step, or reported as left |
| Prereqs.NeedsMetExactly | edp-contracts/src/edp_contracts/prereqs.py:562-734 | in a planned run, however the installers end, every started installer finds each need there or installed by an earlier step, if and only if the missing needs of every wanted installable tool are installable too |
| Prereqs.StartedWithoutNeed | edp-contracts/src/edp_contracts/prereqs.py:591-616 | otherwise, with every installer ending in 0, the tool is started, its need never ran and is left to a person |
| Prereqs.NeedMayBeLeft | edp-contracts/src/edp_contracts/prereqs.py:95-214 | with the shipped manifest, root on an empty Linux machine asks for codex: codex is installed without node |
| ParityOracle.Find | v8/scripts/parity_oracle.py:293-299 | the least position at which the separator occurs, or none anywhere |
| ParityOracle.JoinSplit | v8/scripts/parity_oracle.py:287-289 | joining the pieces of a split gives the text back |
| ParityOracle.BlocksRecover | v8/scripts/parity_oracle.py:287-311 | reminders joined by a seat are taken apart again as they were written |
| ParityOracle.RejoinExactly | v8/scripts/parity_oracle.py:287-311 | the blocks join to the original text if and only if it starts with the marker and no later piece does |
| ParityOracle.PendingSteer | v8/scripts/parity_oracle.py:283-303 | looking back, the accepted steer of a client not followed by another or by its message |
| ParityOracle.LastDone | v8/scripts/parity_oracle.py:280-282 | looking back, the label of the last finished native or MCP item |
| ParityOracle.Capture | v8/scripts/parity_oracle.py:243-314 | the single pass with its three dictionaries gives exactly the backward-looking meaning of every message, and raises when there is none |
| ParityRows.TraceExactly | v8/scripts/parity_oracle.py:243-314 | an event of any kind is in the trace if and only if some message reports it: a parity tool's call, the answer to an open call with its own text, an appended or shown reminder, an accepted start's reminder, or an accepted start that is neither a reminder nor a driver's prompt |
| ParityRows.TraceInRowOrder | v8/scripts/parity_oracle.py:243-314 | messages report in their order, without repeats |
| ParityRows.OnePerShownBlock | v8/scripts/parity_oracle.py:281-289 | a shown steer gives one notification per reminder, in order |
| ParityRows.OnePerStartBlock | v8/scripts/parity_oracle.py:303-311 | an accepted start gives one notification per reminder, or one cron fire, or nothing for a driver's prompt |
| ParityRows.OnePerAppendedBlock | v8/scripts/parity_oracle.py:290-302 | an answer to an open call gives the parity tool's result and then one notification per appended reminder |
| ParityRows.AnswerComesApart | v8/scripts/parity_oracle.py:290-302 | an answer to which reminders were appended comes apart into what the tool said and the reminders as written |
| ParityOracle.AttachedIsBacked | v8/scripts/parity_oracle.py:283-299 | every attached notification comes from a tool's answer or from an earlier accepted steer with the same client id, and names the item finished last |
| ParityOracle.SpentOnce | v8/scripts/parity_oracle.py:283-289 | no two messages show the same steer |
| ParityOracle.CaseOnly | v8/scripts/parity_oracle.py:322-344 | the two loops keep exactly what the filter describes |
| ParityRows.CaseOnlyExactly | v8/scripts/parity_oracle.py:322-344 | the filter keeps, at their places and in order, exactly the calls and results, the notifications that name a task of a monitor's result in the trace, and the cron fires whose first line is the prompt of a cron created in it |
| ParityOracle.CaseOnlyIdempotent | v8/scripts/parity_oracle.py:322-344 | filtering a filtered trace changes nothing, whatever the id patterns find |
| BoundedRun.Host.Wait | edp-contracts/src/edp_contracts/proc.py:180-189 | the survivors are those seen running at every poll; it stops at the first poll with none and never a whole poll after the timeout |
| BoundedRun.Host.KillTree | edp-contracts/src/edp_contracts/proc.py:192-225 | every process of the tree is a reported survivor running at the end, was gone at some moment, or cannot be identified in the end; unless all were gone at some moment it takes the full grace and two seconds |
| BoundedRun.Host.KillPopen | edp-contracts/src/edp_contracts/proc.py:228-242 | an exited command is refused at once; otherwise at most grace and three seconds pass, reached when nothing ends |
| BoundedRun.Host.RunBounded | edp-contracts/src/edp_contracts/proc.py:298-329 | a command that exits in time returns by the deadline, as soon as its pipes close; otherwise within timeout, rounded grace and four seconds, reached when nothing ends |
| CompositeSpawner.ForwardReachesOwner | edp-pool/src/edp_pool/composite_spawner.py:32-35 | every forwarded call reaches the first leaf, second before primary, that knows the session |
| CompositeSpawner.HarnessOfOwner | edp-pool/src/edp_pool/composite_spawner.py:59-65 | the harness reported is that of the leaf all calls reach, and None when no leaf knows the session |
| CompositeSpawner.HarnessesAreTheLeaves | edp-pool/src/edp_pool/composite_spawner.py:12-18 | a stack names exactly its leaves' harnesses, each once |
| CompositeSpawner.LandsOnFirst | edp-pool/src/edp_pool/composite_spawner.py:67-75 | a launch by harness lands on the first leaf that has it and fails exactly when none has |
| CompositeSpawner.LaunchSideExactly | edp-pool/src/edp_pool/composite_spawner.py:37-53 | at every composite of a stack a launch lands below the second backend if and only if the role, or the model asked for, is one it is there for |
| CompositeSpawner.PlainLaunchLandsLast | edp-pool/src/edp_pool/composite_spawner.py:37-53 | a launch that no composite claims lands on the innermost primary backend |
| CompositeSpawner.FirstAnswerIs | edp-pool/src/edp_pool/composite_spawner.py:83-95 | questions about closed sessions are answered by the first leaf that has an answer |
| CompositeSpawner.LaunchedIsOwnerExactly | edp-pool/src/edp_pool/composite_spawner.py:32-35 | after a launch the stack reaches that leaf if and only if no leaf asked before it knows the same id |
| CompositeSpawner.LaunchThenUse | edp-pool/src/edp_pool/composite_spawner.py:67-110 | for a fresh session id a launch by harness succeeds exactly when a leaf has it; then its harness is reported and every call reaches that leaf |
| CompositeSpawner.LaunchByRoleThenUse | edp-pool/src/edp_pool/composite_spawner.py:37-53 | the same for a launch routed by role and model |

## Left out

- Windows plumbing: thread handles, window titles, job objects and console input; suspend counts, process tables and a clock remain.
- `tree_pids` and `children(recursive=True)`: the closure over parent edges of `Descendants`, with the root in front; zombies are not modelled.
- Proctree: whether a process may be signalled does not change during its life.
- Proctree.Machine.TreePids: a child is compared with its direct parent's start, as the comment of `proc.py` (lines 12-13) describes; psutil's own comparison is not part of this model.
- Proctree.Machine.Arm: how a launch goes is an arbitrary answer, on record.
- Proctree.Machine.Disarm: one step; `PauseProtocol` takes its read and its unlink apart, and an unlink that fails is not modelled.
- PauseProtocol.EveryFreezeEnds: counts steps of the responsible watchdog; that the operating system schedules it is an assumption.
- Run ids are issue numbers and never repeat; the original draws random ids.
- JSON and date encoding: messages, settings and rows are values, and a line that cannot be read is `Torn`.
- `InboxStore.query` and `get_message`, `ChannelStore.put` and `delete`, a corrupt `channels.json` or `aliases.json`.
- Server-sent event framing (section 9.2 of the WHATWG HTML standard): a stream is a sequence of messages.
- EventStream.Stream.Pass: for a fixed alias map; `PutAlias` says what a later alias does.
- Shadow.ShellShadow.constructor: attaches to a settled ledger; `ShadowDeath` says what follows when it is behind.
- StreamHub.NoLostWakeExactly: for a fixed alias map during a run.
- Shadow: the driver's thread and the loop's thread are interleaved by whole steps; the unlocked increment of the number is not split further, and a corrupt ledger is not modelled.
- Shadow.CutBetweenLinesExactly: a text is what reading gives, with `\r\n` and `\r` already newlines; a chunk that ends between the two characters of `\r\n` is not modelled.
- Shadow.ShellShadow.Tick: the published crash event and the log are not modelled.
- PoolConfig.Settings.Merge: the words of the report are not modelled, only which changes it lists; dictionary order is not modelled, and numbers are compared by their text.
- PoolConfig.AddHooks: a command that is a list or an object is compared as a value; its printed text is not modelled.
- PoolConfig.ConfigDir.SeedThenUpgrade: the temporary file and the hard link are one step.
- Prereqs: reading a version out of a text and probing for it, the command lines and the reason texts; what a probe finds and what an installer exits with are arbitrary.
- Prereqs.BuildPlan: needs a manifest of the shipped shape; sorting by manifest order is walking the manifest.
- ParityOracle.Capture: JSON rows are values with the texts of their content lists joined; the Claude and Pi captures, the normalising patterns and the diff are not modelled.
- BoundedRun.Host.KillTree: job objects and process groups are not modelled.
- BoundedRun.Host.RunBounded: starting and signalling take no time and a sleep takes exactly its argument; the collected output and job objects are not modelled.
- CompositeSpawner: `pins_session_id` and `session_token` do not recurse into a nested primary; `has_transcript` and `close_viewport` are not modelled.
- Effort clamps of seats, site generation, web services, drills and configuration files: small, finite or input and output only.
