# Campfire: verified models of the mock sync server, the toolchain digest and API paging

This project models, in Dafny, the parts of the Campfire repository that keep state over long runs
or that promise that one form can be turned into another and back, and proves what they promise for
every input, every run or every reachable state.

- **Scheduler** (`Scheduler.dfy`): the deterministic timer scheduler. Callbacks are data and a function
  that interprets them, so `advance` is a loop over a state that its own callbacks change. Proved:
  composition and splitting of advances, order, exactly once, termination under re-arming callbacks.
- **Sync hub** (`Hub.dfy`, `HubInvariants.dfy`, `HubRuns.dfy`, `HubResume.dfy`, `HubSessions.dfy`,
  `HubClient.dfy`, `HubFrames.dfy`, `Epochs.dfy`, `SyncHub.dfy`): publish/subscribe with epochs, sequence numbers, a 500-event replay ring, resume, topic
  admission, presence and keep-alive pings. `Hub` is the step function, with the unbounded log of the
  epoch as a history; `SyncHub` is the object with the closure's fields, each method proved to take the
  step and to keep the invariant. The main theorem (`ManyDropsLoseNothing`) compares a client that loses
  any number of connections, each with any number of its frames unreceived, with one that never dropped;
  in `WelcomeIsEnough` the client goes by the welcome's `resumed` flag alone and the hub may restart too.
- **Simulation** (`Simulation.dfy`, `SimulationRuns.dfy`, `MockSimulation.dfy`): ambient ticks and streamed bot
  replies on the same scheduler, with any other users of the scheduler interleaved.
- **Toolchain inputs** (`Toolchain.dfy`, `ToolchainWords.dfy`, `Noninterference.dfy`, `Framing.dfy`,
  `Ordering.dfy`): the recursive search over Dockerfile stages, its graph by the words of their lines, the worklist of referenced variables, and the byte stream the hash sees.
- **Read state and posting** (`ReadState.dfy`, `Seed.dfy`, `Posting.dfy`, `Workspace.dfy`, `ClientView.dfy`,
  `Announcements.dfy`): timelines, the unread divider, the seeded world as the initial state, idempotent posting with held sends,
  and all of it with the hub in one state, where presence is what connections say and every message is
  announced; so a client that drops any number of times is told exactly its rooms' timelines, and of every
  room of the viewer's in which anything changed.
- **API pieces** (`Cursor.dfy`, `Timestamps.dfy`, `TimestampTexts.dfy`, `Calendar.dfy`, `DatabaseOrder.dfy`,
  `Pagination.dfy`, `Routes.dfy`, `Sla.dfy`): opaque cursors over the database's own timestamp text, keyset paging that drops
  rows after taking the cursor, the route-spec parser, and the validate-then-apply SLA update with its audits.

`Common.dfy`, `Decimal.dfy` and `Splitting.dfy` hold what the others share. Check everything with
`dafny verify dfyconfig.toml`.

Where the code and its comments disagree the model follows the code:

- The comments in `crates/api/src/cursor.rs` (lines 13, 25 and 36) say that only cursors the encoder made
  decode. `PlusSignDecodes`, `LoosePairDecodes` and `LooseRankedDecodes` give inputs that decode though no
  encoder makes them; `DecodedIdIsEncoded`, `DbPairExactly` and `DbRankedExactly` say, by the letters of the
  text alone, exactly which accepted cursors are the encoder's own.
- The mark-unread answer names the chosen message as the first unread one even when it is a system note,
  which the divider then skips: `MarkUnreadDivider` states when the two agree, in both directions, and
  `NoteHasNoDivider` is a room where they do not.
- In a muted room messages that did not make the room unread are still counted once a mention does:
  `QuietMessageIsCounted` is an instance and `UnreadStartsHere` the exact condition.
- The seed keeps the night free except for the newest message of a room, which is wherever the clock puts it:
  `MessageTimes` says that a room has a message at night if and only if that one is.
- The database orders instants as text. `TextOrderExactly` gives that order for all instants, and
  `TextOrderIsTimeOrder` says when it is the order of time: exactly when the texts of the two years sort as
  the years do. With years of at most four digits that fails only for two different years before year 0
  (`FourDigitYears`); `WrongWayRound` has such a pair and one around year 10000.
- A build stage may be called as the image another stage starts from; the search then follows the stage.
  With the toolchain's own inputs the same, other stages leave the digest's input alone if and only if none
  of them does that (`DigestSameExactly`); `CaptureExample` is a Dockerfile where one does.

## Model

| member | source | states |
|---|---|---|
| `Scheduler.AdvanceComposes` | frontend/mock/scheduler.ts:58-99 | advancing by a and then b runs the same callbacks at the same clock readings and leaves the same state as advancing by a + b, for callbacks that schedule and cancel at will |
| `Scheduler.AdvanceSplits` | frontend/mock/scheduler.ts:90-99 | the converse: when the joint advance ends, both parts end, and they make up the joint one |
| `Scheduler.FiredWhenDue` | frontend/mock/scheduler.ts:58-99 | only timers due by the target run, each was pending or is new, its callback reads its own time, and no pending timer falls behind the clock |
| `Scheduler.FiredInOrder` | frontend/mock/scheduler.ts:58-99 | callbacks run in strictly ascending (time, id) order, so each at most once |
| `Scheduler.DueTimersRun` | frontend/mock/scheduler.ts:90-99 | a timer due by the target that is pending at any point of the advance runs later in it, unless a callback that runs in between cancels it |
| `Scheduler.GoneForGood` | frontend/mock/scheduler.ts:58-99 | a cancelled or fired timer's id never runs again |
| `Scheduler.AdvanceTerminates` | frontend/mock/scheduler.ts:90-99 | the loop ends whenever callbacks re-arm by some fixed positive delay with bounded fan-out, with an explicit bound on its rounds |
| `Scheduler.NextDue` | frontend/mock/scheduler.ts:58-76 | the pick is the earliest due timer by time and then id, and there is none exactly when nothing is due |
| `Scheduler.ManualScheduler.constructor` | frontend/mock/scheduler.ts:53-56 | a clock at the start and no timers |
| `Scheduler.ManualScheduler.Schedule` | frontend/mock/scheduler.ts:80-86 | a new id, at the clock plus the delay, a negative one counting as none |
| `Scheduler.ManualScheduler.Cancel` | frontend/mock/scheduler.ts:87-89 | that id and no other is gone |
| `Scheduler.ManualScheduler.TakeDue` | frontend/mock/scheduler.ts:58-76 | returns the earliest due timer and removes exactly it |
| `Scheduler.ManualScheduler.Advance` | frontend/mock/scheduler.ts:90-99 | the loop's final state and its firings are those of the specification the theorems above are about |
| `HubRuns.ReachableInv` | frontend/mock/sync.ts:89-327 | in every reachable state the connection table, the ring, the pings, the order of delivery and the topics satisfy the invariant |
| `HubRuns.NextKeeps` | frontend/mock/sync.ts:224-322 | every step of the hub, every timer and every passing of time keeps it |
| `HubRuns.ResumesExactly` | frontend/mock/sync.ts:176-180 | a token resumes if and only if its epoch is current, its point lies in the log, and every later event is still in the ring |
| `HubRuns.ReplayIsLog` | frontend/mock/sync.ts:206-213 | the replay from the bounded ring equals the replay from the unbounded log |
| `HubRuns.RingExactly` | frontend/mock/sync.ts:120-130 | the ring is the last 500 events of the log, or all of it, and the log is numbered from 1 |
| `HubRuns.StaleTokenNeverResumes` | frontend/mock/sync.ts:317-322 | with fresh epochs a token of an earlier epoch never resumes, in any later state |
| `Epochs.EpochsDiffer` | frontend/mock/server.ts:323 | the server's epochs of different restart numbers differ, whatever the clock reads |
| `Epochs.ServerEpochsAreFresh` | frontend/mock/server.ts:1685-1687 | so every restart of a server run gives the hub an epoch not used before |
| `Epochs.RestartInvalidatesTokens` | frontend/mock/server.ts:1685-1687 | so after a restart no earlier token ever resumes again |
| `HubRuns.NeverSilent` | frontend/mock/sync.ts:97-109 | an open connection has exactly one pending ping, due 15,000 ms after its last frame or its connect, and is never silent for longer |
| `HubRuns.ClosedHasNoPing` | frontend/mock/sync.ts:111-118 | a closed connection has no pending ping |
| `HubRuns.PingOnTime` | frontend/mock/sync.ts:97-103 | a ping fires exactly when due, on an open connection, sends one frame and touches no other connection |
| `HubRuns.AdvanceIsRun` | frontend/mock/scheduler.ts:90-99 | advancing the clock under the hub always ends and is a run of hub steps, so the invariant holds throughout |
| `HubRuns.PresentIsOpenUnion` | frontend/mock/sync.ts:289-297 | a room is present exactly when some open connection looks at it |
| `HubInvariants.DeliverSends` | frontend/mock/sync.ts:132-140 | delivery sends each listed open connection but the excepted one a single batch of its own events, and nobody anything else |
| `HubResume.StepSends` | frontend/mock/sync.ts:224-322 | what any step adds to what a connection was sent, and to the log |
| `HubResume.OnlyHeldTopics` | frontend/mock/sync.ts:132-140 | every event a connection receives is on a topic it holds |
| `HubResume.ReplayIsPlainMine` | frontend/mock/sync.ts:206-213 | the replay is what the log after the token's point holds for the viewer on those topics, typing aside |
| `HubResume.HelloCatchesUp` | frontend/mock/sync.ts:171-214 | after any hello, resumed or not, nothing but typing lies between the client's point and the end of the log |
| `HubResume.RunFollows` | frontend/mock/sync.ts:132-140 | over any run that leaves a connection open and its topics alone, it receives exactly the log's events on its topics, and stays caught up |
| `HubResume.ResumeLosesNothing` | frontend/mock/sync.ts:171-214 | a client that drops at any point and resumes with the last seq it applied has received, in order and once each, exactly the non-typing events of a connection on the same topics that never dropped |
| `HubResume.WelcomeSays` | frontend/mock/sync.ts:176-204 | the first frame after a hello, and only that one, is a welcome with the hub's epoch, the log's end as `replayThrough` and the viewer; it says `resumed` if and only if the token has the current epoch, its point lies in the log and every later event is in the ring, and it puts the client at the token's point or else at the log's end |
| `HubSessions.FramesFollow` | frontend/mock/sync.ts:171-214 | however many of the frames sent from a hello on arrive, the client has applied exactly what the log shows from where the hello put it to its new point, and with all of them nothing is left |
| `HubSessions.SessionsFollow` | frontend/mock/sync.ts:171-222 | over any number of sessions, with anything but a restart in between, the hub dropping everyone included, the client has applied exactly what the log shows from its first point to its last, and nothing is left if the last session arrived whole |
| `HubSessions.ManyDropsLoseNothing` | frontend/mock/sync.ts:132-214 | what the client applies over any number of lost connections, each cut off after any number of frames, followed by what the log still holds for it, is exactly what a connection on the same topics that never dropped was sent, typing aside |
| `HubClient.SessionCurrent` | frontend/src/sync/engine.ts:962-1001 | a client that keeps its point when the welcome says `resumed` and otherwise fetches afresh has, whatever part of the connection arrives, applied exactly what the log shows from its fetch to its point |
| `HubClient.WelcomeIsEnough` | frontend/src/sync/engine.ts:962-1001 | so from a new page on, over any number of connections, restarts of the hub and stretches away from it, a client that decides by `resumed` alone misses nothing and applies nothing twice, and has all there is if the last connection arrived whole |
| `HubFrames.AdmitExactly` | frontend/mock/sync.ts:149-163 | a room topic is admitted to members, a thread topic to those with access, any other to anyone |
| `HubFrames.TopicsExactly` | frontend/mock/sync.ts:165-239 | after a hello a connection has the admitted topics it asked for and "user"; subscribing adds the admitted ones, unsubscribing removes all but "user" |
| `HubFrames.PresentExactly` | frontend/mock/sync.ts:247-249 | a room is looked at after `present` if and only if it was before or it is that room and the viewer a member |
| `HubFrames.AbsentExactly` | frontend/mock/sync.ts:250-252 | after `absent` it is if and only if another open connection looks at it, or this one does and it is another room |
| `HubFrames.ClosedIsAbsent` | frontend/mock/sync.ts:111-118 | after a close if and only if another open connection does |
| `HubFrames.PublishUnfollows` | frontend/mock/sync.ts:278-288 | a publication takes from each open connection exactly the topics to be unsubscribed, in turn, never "user" |
| `HubFrames.TypingExactly` | frontend/mock/sync.ts:240-246 | typing in an admitted topic is one event of the log, told to every other open connection that follows it and not to the typist; in any other topic it is nothing |
| `HubFrames.ConnectExactly` | frontend/mock/sync.ts:259-277 | a new connection is open under a new id, follows "user" alone, looks at nothing and was told nothing; frames on a closed one, and heartbeats, are nothing |
| `HubFrames.DropAllExactly` | frontend/mock/sync.ts:216-222 | every open connection is closed and hung up on, after one bye or none as asked, and no other changes |
| `HubFrames.RestartExactly` | frontend/mock/sync.ts:317-322 | a restart does that with a bye and starts the epoch from nothing, its first event number 1 |
| `HubFrames.ResyncExactly` | frontend/mock/sync.ts:312-316 | every open connection is told its own topics and the reason, once, and nothing else happens |
| `HubFrames.SubscribedExactly` | frontend/mock/sync.ts:298-310 | the rooms followed are those whose topic some open connection has |
| `SyncHubObject.SyncHub.constructor` | frontend/mock/sync.ts:89-95 | an empty hub in its epoch, satisfying the invariant |
| `SyncHubObject.SyncHub.ArmPing` | frontend/mock/sync.ts:97-103 | the old timer is cancelled and one new one scheduled |
| `SyncHubObject.SyncHub.Transmit` | frontend/mock/sync.ts:105-109 | a frame to an open connection, and its ping re-armed |
| `SyncHubObject.SyncHub.Forget` | frontend/mock/sync.ts:111-118 | closed, off the list, no timer |
| `SyncHubObject.SyncHub.Record` | frontend/mock/sync.ts:120-130 | the next number, appended to the ring, trimmed at 500 |
| `SyncHubObject.SyncHub.Deliver` | frontend/mock/sync.ts:132-140 | the loop over connections does what `DeliverSends` describes |
| `SyncHubObject.SyncHub.Follow` | frontend/mock/sync.ts:165-169 | exactly the admitted topics are added |
| `SyncHubObject.SyncHub.Unfollow` | frontend/mock/sync.ts:234-239 | exactly the named topics but "user" are removed |
| `SyncHubObject.SyncHub.Hello` | frontend/mock/sync.ts:171-214 | topics reset, then a fresh welcome or a welcome at the client's point and the replay |
| `SyncHubObject.SyncHub.RunNext` | frontend/mock/sync.ts:99-102 | the next due timer's callback, a ping's or another's, keeping the invariant |
| `SyncHubObject.SyncHub.MoveClock` | frontend/mock/scheduler.ts:98 | the clock moved to where nothing is due before, keeping the invariant |
| `SyncHubObject.SyncHub.Receive` | frontend/mock/sync.ts:224-256 | each frame's step, keeping the invariant |
| `SyncHubObject.SyncHub.Connect` | frontend/mock/sync.ts:259-277 | a new open connection with a ping to come, keeping the invariant |
| `SyncHubObject.SyncHub.Close` | frontend/mock/sync.ts:275 | forgets the connection, keeping the invariant |
| `SyncHubObject.SyncHub.Publish` | frontend/mock/sync.ts:278-288 | records all, delivers all, then unsubscribes, keeping the invariant |
| `SyncHubObject.SyncHub.PresentRooms` | frontend/mock/sync.ts:289-297 | exactly the rooms some open connection looks at |
| `SyncHubObject.SyncHub.SubscribedRooms` | frontend/mock/sync.ts:298-310 | exactly the rooms some connection follows, ascending and once each |
| `SyncHubObject.SyncHub.DropAll` | frontend/mock/sync.ts:216-222 | every connection told, forgotten and hung up on, keeping the invariant |
| `SyncHubObject.SyncHub.ResyncAll` | frontend/mock/sync.ts:312-316 | every connection told its topics, keeping the invariant |
| `SyncHubObject.SyncHub.Restart` | frontend/mock/sync.ts:317-322 | everyone dropped, a new epoch, an empty log, keeping the invariant |
| `SimulationRuns.ReachableInv` | frontend/mock/simulation.ts:60-171 | in every reachable state the timer set, what each reply has shown and which timers are still to come, and when, are as described below |
| `SimulationRuns.TimersAreOwn` | frontend/mock/simulation.ts:67-74 | the `timers` set is exactly the set of the simulation's own pending timers |
| `SimulationRuns.OneTick` | frontend/mock/simulation.ts:116-140 | a running simulation has exactly one tick to come and a stopped one none, however often it was started and stopped |
| `SimulationRuns.PrefixesInOrder` | frontend/mock/simulation.ts:148-171 | the j-th write of a reply is its first j phrases run together, marked streaming exactly when more phrases follow |
| `SimulationRuns.WrittenOnTime` | frontend/mock/simulation.ts:148-171 | a write never appears before its time and, for a reply that is not cut or refused, is there once its time has come |
| `SimulationRuns.ReplyCompletes` | frontend/mock/simulation.ts:148-171 | once its time is over such a reply holds the full text, its last write and only that one is not streaming, and nothing of it is pending |
| `SimulationRuns.SilentAfterStop` | frontend/mock/simulation.ts:134-140 | after `stop`, until the next start or request, no timer of the simulation is pending and no reply is written to, whatever else happens |
| `SimulationRuns.NextUpdate` | frontend/mock/simulation.ts:163-168 | of a reply's pending updates the one that fires is always the next phrase |
| `SimulationRuns.TickExactly` | frontend/mock/simulation.ts:116-126 | a tick of a running simulation schedules chatter only when not paused and some is drawn, and always the next tick; of a stopped one nothing |
| `SimulationRuns.ScriptsInTurn` | frontend/mock/simulation.ts:148-152 | the k-th reply asked for says the k-th script, round and round, or "On it." if there are none |
| `SimulationRuns.AdvanceIsRun` | frontend/mock/scheduler.ts:90-99 | advancing the clock under the simulation always ends and is a run of its steps |
| `MockSimulationObject.MockSimulation.constructor` | frontend/mock/simulation.ts:60-65 | no timers, not running, invariant holds |
| `MockSimulationObject.MockSimulation.Schedule` | frontend/mock/simulation.ts:67-74 | one timer more on the scheduler and its id in the set |
| `MockSimulationObject.MockSimulation.Begin` | frontend/mock/simulation.ts:129-133 | starts once, keeping the invariant |
| `MockSimulationObject.MockSimulation.Halt` | frontend/mock/simulation.ts:134-140 | cancels every own timer and no other, keeping the invariant |
| `MockSimulationObject.MockSimulation.CancelAll` | frontend/mock/simulation.ts:137 | cancelling the ids one by one, in any order, leaves exactly the other timers |
| `MockSimulationObject.MockSimulation.Ask` | frontend/mock/simulation.ts:148-152 | a reply begun with the next script, keeping the invariant |
| `MockSimulationObject.MockSimulation.SetPaused` | frontend/mock/simulation.ts:141-146 | the flag and nothing else, keeping the invariant |
| `MockSimulationObject.MockSimulation.RunTick` | frontend/mock/simulation.ts:116-126 | the tick's chatter and the next tick |
| `MockSimulationObject.MockSimulation.RunPost` | frontend/mock/simulation.ts:154-169 | the first write, and one timer for each phrase after it, or nothing if refused |
| `MockSimulationObject.MockSimulation.RunWrite` | frontend/mock/simulation.ts:164-167 | the text grows by its phrase |
| `MockSimulationObject.MockSimulation.RunNext` | frontend/mock/simulation.ts:67-74 | the next timer's callback, struck off first, keeping the invariant |
| `Toolchain.Select` | ci/toolchain-inputs.py:30-63 | succeeds exactly when no reachable stage has a problem, and then selects exactly the reachable stages and the files they copy |
| `Toolchain.ExploredIsNeeded` | ci/toolchain-inputs.py:32-63 | a finished search has selected exactly the stages reachable by FROM and COPY/ADD --from edges, cycles included |
| `ToolchainWords.LineExactly` | ci/toolchain-inputs.py:40-61 | what a line does, by its words alone: a COPY or ADD in any case leads to the stage after its first `--from=`, or without one copies the files of all its arguments but the last; it, or any other line, is refused exactly for mounts, an unknown stage, and paths that are not literal or not there |
| `ToolchainWords.DepsExactly` | ci/toolchain-inputs.py:37-51 | a stage needs another if and only if its FROM line starts from it or some COPY or ADD line names it |
| `ToolchainWords.CleanExactly` | ci/toolchain-inputs.py:37-59 | a stage has no problem if and only if its FROM line names an image and each other line is acceptable in that sense |
| `ToolchainWords.NeededExactly` | ci/toolchain-inputs.py:32-63 | the selected stages are exactly those on a path of such edges from `toolchain` |
| `Toolchain.Search.Visit` | ci/toolchain-inputs.py:32-61 | one call, whatever was visited before it, adds exactly the stages reachable from its own without passing through the old ones, with their files; it fails only where a reachable line is at fault |
| `Toolchain.Search.Gather` | ci/toolchain-inputs.py:53-61 | the first bad path is reported, otherwise exactly the files below the paths are added |
| `Toolchain.Referenced` | ci/toolchain-inputs.py:64-69 | the worklist ends with the least set that holds the lines' variables and is closed under argument values |
| `Toolchain.LeastUnique` | ci/toolchain-inputs.py:64-69 | there is only one such set |
| `Toolchain.ToolchainInputs` | ci/toolchain-inputs.py:19-80 | the whole: succeeds exactly when sound, with the reachable stages, the referenced arguments but the registry, the syntax line and the sorted files |
| `ToolchainWords.OutputByWords` | ci/toolchain-inputs.py:30-80 | so the output, by the words of the Dockerfile: the syntax line, exactly the stages on such a path with their lines, the least set of variables their lines refer to but the registry, with their values, and exactly the files their COPY and ADD lines copy, with content and executable flag |
| `ToolchainWords.SoundByWords` | ci/toolchain-inputs.py:30-63 | and there is one if and only if `toolchain` exists and every stage on such a path does and is acceptable |
| `Noninterference.SameNeeded` | ci/toolchain-inputs.py:32-63 | two projects that agree on the reachable part of one have the same reachable stages and are sound alike |
| `Noninterference.DigestIgnoresTheRest` | ci/toolchain-inputs.py:63-80 | such projects have the same digest input, whatever the other stages are and whatever variable-free default the registry has |
| `Noninterference.OutputUnique` | ci/toolchain-inputs.py:63-80 | the digest input is determined by the project |
| `Noninterference.DigestSameExactly` | ci/toolchain-inputs.py:37-39 | with the toolchain's inputs the same, the digest input is the same if and only if no other stage takes the name of a base image of a reachable stage; otherwise it differs or the search fails |
| `Noninterference.OutputsEqualExactly` | ci/toolchain-inputs.py:37-80 | the same for two projects that both have one |
| `Noninterference.CaptureExample` | ci/toolchain-inputs.py:37-39 | a Dockerfile where a stage does take the name |
| `Framing.Feed` | ci/toolchain-inputs.py:73-79 | the updates made one after another are the stream |
| `Framing.EscapeExactly` | ci/toolchain-inputs.py:74-78 | printable ASCII but the quote and the backslash stands for itself; those two, the control characters with short forms, and examples of the others |
| `Framing.TextExactly` | ci/toolchain-inputs.py:74-78 | the JSON text of each kind of value |
| `Framing.SortedExactly` | ci/toolchain-inputs.py:74-78 | an object has exactly the entries of its map, keys strictly ascending |
| `Ordering.LessExactly` | ci/toolchain-inputs.py:70-80 | the order sorted by: at the first difference, or a proper beginning first |
| `Framing.StreamText` | ci/toolchain-inputs.py:73-78 | the stream is the recipe's text, args then stages then syntax, each sorted and complete, followed by the files |
| `Framing.FileText` | ci/toolchain-inputs.py:79 | and each file is its header of path, flag and length, a zero byte and its content |
| `Framing.DumpPrefixFree` | ci/toolchain-inputs.py:74-78 | no JSON text is a proper beginning of another where neither is followed by a digit, so values and remainders are read back uniquely |
| `Framing.StreamInjective` | ci/toolchain-inputs.py:73-79 | equal streams come from equal recipes and equal lists of path, executable flag and content |
| `Framing.SameBytesExactly` | ci/toolchain-inputs.py:73-79 | two projects feed the hash the same bytes if and only if syntax, stages, arguments and files agree |
| `ReadState.RunKeeps` | frontend/mock/server.ts:943-1151 | over every run of posts, mark-reads, mark-unreads, joins and leaves under any clock, even one going backwards, timelines ascend in id and time and only grow, and a read room has no mentions |
| `ReadState.MarkUnreadDivider` | frontend/mock/server.ts:1128-1151 | marking unread at a message leaves exactly the non-system messages from it on unread; the divider is that message with their count if and only if it is not a system note |
| `ReadState.NoteHasNoDivider` | frontend/mock/server.ts:1145-1150 | a room marked unread at a system note, which then has no divider |
| `ReadState.MarkReadClears` | frontend/mock/server.ts:1119-1126 | nothing is left unread and no mention is counted |
| `ReadState.MarkReadExactly` | frontend/mock/server.ts:1119-1126 | a member's room goes to its newest message, read, without mentions; nothing else in it and no other room changes |
| `ReadState.MarkUnreadExactly` | frontend/mock/server.ts:1128-1142 | it goes to unread from the chosen message's time, read up to the one before, its mentions kept; where the message is not there, or for no member, nothing changes |
| `ReadState.ReadAndPresentStaysRead` | frontend/mock/server.ts:996-1004 | a read room the viewer looks at stays read, up to the new message |
| `ReadState.OwnPostReads` | frontend/mock/server.ts:994-995 | posting reads the room |
| `ReadState.PostGrowsBacklog` | frontend/mock/server.ts:974-1018 | any other message adds itself, and only itself, to the backlog unless it is a system note |
| `ReadState.DividerStays` | frontend/mock/server.ts:466-471 | later messages never move the divider and count one each |
| `ReadState.UnreadStartsHere` | frontend/mock/server.ts:1005-1008 | a room that becomes unread has its divider at the new message if and only if no quiet backlog was there |
| `ReadState.UnreadExactly` | frontend/mock/server.ts:996-1018 | someone else's message nobody looks at makes a read room unread if and only if it is not muted or the message mentions the viewer, raises the mentions by one exactly for a mention, and leaves an unread room's mark alone |
| `ReadState.LookedAtExactly` | frontend/mock/server.ts:994-1018 | one that is looked at leaves a read room read up to it with no mentions, and an unread room, or any room for a system note, as it was |
| `ReadState.TimedAfter` | frontend/mock/server.ts:975-988 | a message is appended at the clock, or just after the room's last one if that is later |
| `ReadState.QuietMessageIsCounted` | frontend/mock/server.ts:1000-1008 | a muted room where it is not |
| `ReadState.World.CreateMessage` | frontend/mock/server.ts:974-1034 | the appended message and the room's new read state, keeping the invariant |
| `ReadState.World.MarkRoomRead` | frontend/mock/server.ts:1119-1126 | not found exactly for rooms that are unknown or not the viewer's, otherwise read, keeping the invariant |
| `ReadState.World.MarkRoomUnread` | frontend/mock/server.ts:1128-1151 | not found exactly for rooms that are unknown or not the viewer's and for unknown messages, otherwise unread from that message, keeping the invariant |
| `Seed.BeforeIsEarlier` | frontend/mock/seed.ts:615-627 | whatever is drawn, the message before is strictly earlier and not at night |
| `Seed.BeforeExactly` | frontend/mock/seed.ts:600-627 | exactly where it lies: a gap before, or, where that is between 3:00 and 12:00, the drawn time of that day's first hours |
| `Seed.MessageTimes` | frontend/mock/seed.ts:608-631 | strictly ascending times, the last one where asked, all others by day, so that some time is at night if and only if the last one is |
| `Seed.NightExactly` | frontend/mock/seed.ts:600-631 | whatever is drawn, a room's times hold one at night if and only if its newest is |
| `Seed.NewestAtNight` | frontend/mock/seed.ts:600-631 | a room seeded at five in the morning with a message of that moment has one at night, and at three in the afternoon none |
| `Seed.SortDrafts` | frontend/mock/seed.ts:782 | a sorted permutation of the drafts |
| `Seed.RoomOrderKept` | frontend/mock/seed.ts:782-832 | sorting all rooms' drafts together keeps each room's own order |
| `Seed.Group` | frontend/mock/seed.ts:784-832 | each room's list is its own drafts in order, numbered within the room's block |
| `Seed.SeededRoomOk` | frontend/mock/seed.ts:756-772 | a seeded room satisfies the read-state invariant, with exactly the asked tail unread |
| `Seed.DraftRoom` | frontend/mock/seed.ts:671-716 | message by message the author, mention and time of the room's script, in ascending time |
| `Seed.SeedWorld` | frontend/mock/seed.ts:775-866 | every room is exactly what its own table row and script say, whatever the other rooms are and though all drafts are sorted together; no other rooms; and the state satisfies the read-state invariant, the viewer a member of all and no message from a client |
| `Seed.BuildRooms` | frontend/mock/seed.ts:834-862 | a room for each table row, and no other |
| `Seed.PlannedMessage` | frontend/mock/seed.ts:671-832 | what the k-th message of such a room is: its id in the room's block of 10,000, its time, author and mention, the newest at the row's own time |
| `Seed.SeededReadState` | frontend/mock/seed.ts:756-862 | the viewer's place: unread from the tail's first message, read up to the one before, the tail's mentions counted, updated at the newest |
| `Posting.KeyInjective` | frontend/mock/server.ts:1084 | keys of different rooms or client ids differ, whatever the client puts into its id |
| `Posting.AtMostOnce` | frontend/mock/server.ts:1081-1117 | over any interleaving of sends, retries, holds, releases and whatever else happens to the rooms, under any clock and presence, a room holds at most one message per client id, one request at most creates it, and every successful answer carries a message with that id that is in that room's timeline |
| `Posting.RetryAnswers` | frontend/mock/server.ts:1081-1098 | once a request has succeeded, at any later time every request with its room and client id, whatever else it says, is answered with its message, or not found where the viewer is no member any more, and changes no room |
| `Posting.AnsweredInOrder` | frontend/mock/server.ts:1236-1257 | requests are answered exactly once, in arrival order, and all of them once sends are not held |
| `Posting.RunKeeps` | frontend/mock/server.ts:1081-1117 | every run keeps the invariant behind it |
| `Posting.SendReads` | frontend/mock/server.ts:1081-1117 | a send that creates its message leaves its room read up to it and every other room alone; every other answer, a retry's too, changes no room |
| `Posting.AnswersExactly` | frontend/mock/server.ts:1081-1117 | when each answer is given, with every condition in the request's and the room's own terms: not found, invalid in each field, repeated, and created exactly for a member's new client id with a body that parses and no reply or one to a message of the room |
| `Posting.PostingServer.CreateFrom` | frontend/mock/server.ts:1081-1117 | the response and the new state, error cases included |
| `Posting.PostingServer.Send` | frontend/mock/server.ts:1250-1257 | answered now if and only if sends are not held, and otherwise queued |
| `Posting.PostingServer.ReleaseHeld` | frontend/mock/server.ts:1236-1242 | every held request is run, first come first served |
| `Posting.PostingServer.HoldSends` | frontend/mock/server.ts:1244-1248 | holding is set, and lifting it releases |
| `Workspace.ReachableInv` | frontend/mock/server.ts:323-1257 | over every run of sends, holds, releases, other people's messages, marks and hub steps, the invariants of the hub, the read state and the posting hold together, and the hub's log tells the timelines |
| `Workspace.AnnouncedCreates` | frontend/mock/server.ts:990-1025 | what one message publishes says exactly once, on its own room's topic, that it was created |
| `Workspace.AsideExactly` | frontend/mock/server.ts:948-1025 | what else one message publishes, each exactly when: the room unread, the sidebar row, the notification |
| `Workspace.LogTellsTimeline` | frontend/mock/server.ts:974-1034 | in every room the log of the hub's epoch tells each message created since the epoch began, in timeline order, once each, and no other |
| `Workspace.SentOnce` | frontend/mock/server.ts:1081-1117 | at most once, answered from the room's own timeline and in order, with clock and presence those of the running server |
| `Workspace.RetryIsSilent` | frontend/mock/server.ts:1087-1098 | at any time after a success, a retry is answered with the message the first request made, changes no room and publishes nothing |
| `Workspace.LookedAtStaysRead` | frontend/mock/server.ts:994-1018 | a read room that someone else's message comes to stays read if and only if some open connection of the hub looks at it, or it is muted and the viewer not mentioned |
| `ClientView.RunMoves` | frontend/mock/server.ts:974-1257 | every run of the server is a run of its hub |
| `ClientView.ClientSeesTimeline` | frontend/mock/server.ts:974-1034 | over any number of drops, each after any number of frames, the created messages a client applies in a room it follows are exactly the messages of that room's timeline between its points, in order and once each |
| `ClientView.ClientGetsNewMessages` | frontend/mock/server.ts:974-1034 | from a hello to a session that arrives whole, that is exactly the messages the room got meanwhile |
| `Announcements.PostTells` | frontend/mock/server.ts:990-1025 | someone else's message makes the log say that its room is unread if and only if no open connection looks at the room and it is not muted or the message mentions the viewer, and notifies a member exactly as they follow the room |
| `Announcements.MarkTells` | frontend/mock/server.ts:1119-1151 | marking a room read or unread is one event on the viewer's topic, exactly when the room is theirs and the message is there |
| `Announcements.ChangesAreTold` | frontend/mock/server.ts:974-1257 | over every run within the hub's epoch, if anything in a room of the viewer's is not as it was, timeline, read state or mentions, the log has an event on the viewer's topic that names the room |
| `Announcements.ClientHearsOfChanges` | frontend/mock/server.ts:974-1257 | so a client that lives through any number of drops until a session arrives whole has been told of every room of the viewer's that changed |
| `Cursor.Decode64Encode64` | crates/api/src/cursor.rs:10-15 | unpadded base64url decodes to what was encoded |
| `Cursor.Encode64Decode64` | crates/api/src/cursor.rs:15 | and only the encoder's own text decodes |
| `Cursor.SymbolExactly` | crates/api/src/cursor.rs:10-15 | the alphabet in order: A-Z, a-z, 0-9, `-` and `_`, and no other character is a symbol |
| `Cursor.GroupExactly` | crates/api/src/cursor.rs:10-15 | three bytes are written as the four six-bit digits of one number, two as three and one as two |
| `Cursor.CursorTexts` | crates/api/src/cursor.rs:9-34 | what the three kinds of cursor spell once decoded |
| `Decimal.SignedReads` | crates/api/src/cursor.rs:29 | digits after at most one sign read as the number they spell |
| `Decimal.SignedOnly` | crates/api/src/cursor.rs:29 | and no other text reads as one |
| `Decimal.PlacesExample` | crates/api/src/cursor.rs:22 | the most significant digit comes first, in writing and in reading |
| `Cursor.DecodesExactly` | crates/api/src/cursor.rs:13-18 | a two-part cursor decodes to a time and a number if and only if its text is those two around a bar, the number digits after at most one sign and 64-bit |
| `Cursor.DecodesIdExactly` | crates/api/src/cursor.rs:25-29 | an id cursor decodes if and only if its text is such a number and positive |
| `Cursor.DecodesRankedExactly` | crates/api/src/cursor.rs:36-46 | a ranked one if and only if its text is a number, a time and a number |
| `Cursor.RoundTrip` | crates/api/src/cursor.rs:9-18 | every timestamp and 64-bit id decodes from its cursor |
| `Cursor.RoundTripId` | crates/api/src/cursor.rs:21-29 | every positive id does, and any other is refused |
| `Cursor.RoundTripRanked` | crates/api/src/cursor.rs:32-46 | every rank, timestamp and id does |
| `Cursor.PairIsNoOther` | crates/api/src/cursor.rs:9-46 | a two-part cursor decodes as no other shape |
| `Cursor.IdIsNoOther` | crates/api/src/cursor.rs:9-46 | nor does an id cursor |
| `Cursor.RankedIsNoOther` | crates/api/src/cursor.rs:9-46 | nor does a ranked one |
| `Cursor.PlusSignDecodes` | crates/api/src/cursor.rs:25-29 | an accepted id cursor no encoder makes |
| `Cursor.DecodedIdIsEncoded` | crates/api/src/cursor.rs:25-29 | an accepted id cursor is the encoder's if and only if its number is written canonically |
| `Timestamps.FieldsOf` | crates/db/src/time.rs:135-156 | the calendar fields written for an instant name that instant, through the 400-year proxy and back |
| `Timestamps.FieldsUnique` | crates/db/src/time.rs:135-191 | no other valid fields do |
| `Timestamps.EpochFields` | crates/db/src/time.rs:135-191 | instant 0 is the start of 1970 |
| `Timestamps.RestReads` | crates/db/src/time.rs:203-243 | month to microsecond and any year are read back, through whatever proxy year |
| `Timestamps.DbRoundTrip` | crates/db/src/time.rs:178-244 | every instant parses from the text written for it, negative and five-digit years included |
| `TimestampTexts.ParseExactly` | crates/db/src/time.rs:194-244 | exactly which texts are read as an instant, and as which: without the white space around them and one zone, a year, a clock with a space or a `T`, and a fraction, that spell valid fields naming the instant |
| `TimestampTexts.FractionOfExactly` | crates/db/src/time.rs:222-232 | a fraction is nothing, or a point and digits, and counts for the whole microseconds of it, cut off and not rounded |
| `TimestampTexts.AtExactly` | crates/db/src/time.rs:233-242 | the instant of some fields is the microseconds since the start of 1970 |
| `TimestampTexts.TrimExactly` | crates/db/src/time.rs:195-199 | what trimming leaves, and that nothing else could be left |
| `TimestampTexts.ZoneExactly` | crates/db/src/time.rs:195-199 | of a trailing ` UTC` or `Z` one is dropped, the former first |
| `Timestamps.NoBarParses` | crates/db/src/time.rs:194-244 | no text with a bar in it is a timestamp |
| `Timestamps.DbClockSound` | crates/db/src/time.rs:178-244 | so the database's clock has the two properties the cursors rest on |
| `Timestamps.DbCursors` | crates/api/src/cursor.rs:9-46 | so the real cursors round trip and never decode as another shape |
| `Timestamps.TimeTextExactly` | crates/db/src/time.rs:178-244 | an accepted timestamp is the text the database writes for its instant if and only if it is canonical by its letters: four year digits or more without an idle zero, two plain digits a field, a space, no zone, no fraction or six digits not all zero |
| `Timestamps.YearTextExactly` | crates/db/src/time.rs:181-185 | the same for the year alone, signed and extended ones included |
| `Timestamps.DbPairExactly` | crates/api/src/cursor.rs:13-18 | an accepted two-part cursor is the encoder's own if and only if its time and its number are written canonically |
| `Timestamps.DbRankedExactly` | crates/api/src/cursor.rs:36-46 | likewise for three parts |
| `Timestamps.LoosePairDecodes` | crates/api/src/cursor.rs:13-18 | an accepted two-part cursor no encoder makes |
| `Timestamps.LooseRankedDecodes` | crates/api/src/cursor.rs:36-46 | an accepted ranked cursor no encoder makes |
| `Calendar.DateOfDay` | crates/db/src/time.rs:180-187 | every day number has a valid Gregorian date |
| `Calendar.DateUnique` | crates/db/src/time.rs:180-187 | and only one |
| `Calendar.DaysCount` | crates/db/src/time.rs:180-187 | the day numbers count the days of the Gregorian calendar one by one, with its month lengths and leap years, from 1 January 1970 |
| `Calendar.ValidExactly` | crates/db/src/time.rs:220 | a date is valid if and only if its month has the day |
| `Calendar.DateRepeats` | crates/db/src/time.rs:105-122 | moving a date by whole 400-year cycles moves its day by whole cycles |
| `DatabaseOrder.TextOrderExactly` | crates/db/src/time.rs:178-191 | the order of the database's texts of any two instants: that of time within a year, that of the years' texts between years |
| `DatabaseOrder.TextOrderIsTimeOrder` | crates/db/src/time.rs:178-191 | the texts of two instants sort as the instants do if and only if the texts of their years sort as the years do |
| `DatabaseOrder.FourDigitYears` | crates/db/src/time.rs:181-185 | from year -9999 to 9999 that is if and only if the years are equal or not both before year 0 |
| `DatabaseOrder.YearsSortExactly` | crates/db/src/time.rs:181-185 | the order of any two years' texts in numbers, of whatever length: by sign, then by size once padded to one width, then the shorter first |
| `DatabaseOrder.WrongWayRound` | crates/db/src/time.rs:181-185 | two pairs of instants whose texts sort the wrong way round |
| `DatabaseOrder.NewestFirstIsLatest` | crates/db/src/models/activity_item/access.rs:173-218 | the activity query orders two keys by time and then id, latest first, if and only if the texts of their years sort as the years do, which they do from year 0 to 9999 |
| `DatabaseOrder.KeysetExactly` | crates/db/src/models/activity_item/access.rs:172-180 | a row's cursor finds exactly the rows after it, in every table, if and only if the row's stored text is canonical |
| `DatabaseOrder.PairListsVisitAll` | crates/api/src/activity.rs:209-241 | following the cursors of the activity list or the agents' ledger from the first page visits every row once and returns exactly the rows that survive, in order, with the cursors they really write |
| `DatabaseOrder.ApprovalsVisitAll` | crates/api/src/agents.rs:427-471 | likewise the approval history, by id |
| `Pagination.Items` | crates/api/src/activity.rs:44-74 | unusable rows are left out, in order, and an unexpected error fails the list |
| `Pagination.Index` | crates/api/src/activity.rs:209-241 | a page lists what survives of the first rows after the key, with the cursor of the last raw row exactly when more follow |
| `Pagination.RowsAfterKey` | crates/db/src/models/activity_item/access.rs:173-180 | the rows strictly after a row's key are the rows that follow it |
| `Pagination.NextPage` | crates/api/src/activity.rs:221-226 | a page's cursor leads to exactly the rows after the page |
| `Pagination.FollowVisitsAll` | crates/api/src/agents.rs:437-471 | for any order, codec and filter, following the cursors visits every row once and lists exactly the survivors, or fails exactly when some row fails |
| `Pagination.PairCodecFaithful` | crates/api/src/agents.rs:818-823 | two-part cursors read back |
| `Pagination.IdCodecFaithful` | crates/api/src/agents.rs:437-442 | id cursors read back if and only if the ids are positive |
| `Routes.Segments` | crates/routes/build.rs:123-164 | the loop answers what the parse of the spec without its format suffix says, and refuses other optional groups |
| `Routes.ReadName` | crates/routes/build.rs:134-141 | the longest name from there on |
| `Routes.NameCharsExactly` | crates/routes/build.rs:132-137 | which characters, by their codes, make a name and which two start one |
| `Routes.StripExactly` | crates/routes/build.rs:124 | the format suffix goes, once, exactly where a spec ends in it |
| `Routes.DefaultExactly` | crates/routes/build.rs:142-145 | a default is the first one given for the name, and none exactly if none is |
| `Routes.RenderParse` | crates/routes/build.rs:123-164 | rendering the segments gives the spec back |
| `Routes.ParseCanonical` | crates/routes/build.rs:132-163 | no empty or adjacent literals, names as long as they can be, defaults looked up |
| `Routes.ParseRender` | crates/routes/build.rs:123-164 | parsing the rendering of any canonical list gives the list back |
| `Routes.SegmentsOfRendered` | crates/routes/build.rs:123-164 | the segments of a canonical list's rendering are the list if and only if none of its literals holds a parenthesis |
| `Routes.SegmentsBijection` | crates/routes/build.rs:123-164 | a spec is refused exactly for a group; an accepted one renders back without its format suffix to a canonical list without groups, and yields such a list exactly when it is, without that suffix, the list's rendering |
| `Sla.ValidatePasses` | crates/db/src/models/board_sla_rule.rs:55-103 | a row passes if and only if both values are given, positive, in order and in range, and no other rule has its status |
| `Sla.PassesAnywhere` | crates/api/src/board_automations.rs:312-329 | on a consistent board that depends on the row's values alone |
| `Sla.FieldErrorsExactly` | crates/api/src/board_automations.rs:310-335 | errors are reported for exactly the rows that have some |
| `Sla.Board.CheckAll` | crates/api/src/board_automations.rs:310-329 | the first loop collects exactly those errors and writes nothing |
| `Sla.Board.WriteRule` | crates/api/src/board_automations.rs:242-277 | the row's rule takes its values or goes, the audit says what changed, other rules stay |
| `Sla.Board.PutTimers` | crates/api/src/board_automations.rs:279-347 | in the request's own fields: if planned, in progress or blocked is given and neither blank nor in range and order, errors stand under exactly those fields and nothing changes; otherwise each row given in full sets its own status to its two values, a blank one removes it, an absent one leaves it, with the audits |
| `Sla.Board.WriteAll` | crates/api/src/board_automations.rs:336-346 | writing row by row against the rules read at the start amounts to applying all rows |
| `Sla.RowTakesEffect` | crates/api/src/board_automations.rs:242-277 | given rows take their values and blank rows lose their rule |
| `Sla.RequestTakesEffect` | crates/api/src/board_automations.rs:288-346 | the same in the request's own fields: planned, in progress and blocked |
| `Sla.RequestErrors` | crates/api/src/board_automations.rs:288-335 | errors stand under "planned", "inProgress" and "blocked" for exactly the rows that are neither blank nor in range and order |
| `Sla.Untouched` | crates/api/src/board_automations.rs:288-292 | omitted statuses keep theirs |
| `Sla.AuditsReplay` | crates/api/src/board_automations.rs:253-275 | replaying the audits on the old rules yields the new ones |
| `Sla.AuditsAreTrue` | crates/api/src/board_automations.rs:253-275 | every audit says what its status had before and has after, and every status that changed has one |
| `Sla.AuditsMeanChange` | crates/api/src/board_automations.rs:264-267 | there are no audits if and only if nothing changed |
| `Sla.RepeatIsSilent` | crates/api/src/board_automations.rs:264-267 | repeating the update audits nothing and changes nothing |
| `Sla.AcceptedTwice` | crates/api/src/board_automations.rs:279-347 | an accepted request is accepted again |

## Left out

- MockSimulationObject.MockSimulation.RunTick: the host's side of ambient chatter and presence drift (typing, posts, presence) is not recorded; a tick is its timers and draws.
- Toolchain.ToolchainInputs: starts from the sections, global arguments and syntax line of a Dockerfile; the regular expressions and line joining that find them are not modelled, shell word splitting and the variable pattern are abstract functions of a line, and a `${` that only closes on a later line is not covered.
- ReadState.World.MarkRoomRead: publishes nothing; its event is in `Workspace`.
- ReadState.World.MarkRoomUnread: publishes nothing; its event is in `Workspace`.
- ReadState.World.CreateMessage: takes presence as a parameter and publishes nothing; both are in `Workspace`, where the content of an event is its kind and the id it is about.
- Posting.AtMostOnce: starts from a world no client has written to; the random client ids that seeded messages carry are not modelled.
- Seed.DraftRoom: authors, lines and mentions are inputs, so the rewriting of the newest messages of a room is not told apart from a draw.
- DatabaseOrder.PairListsVisitAll: takes every stored text to be one the database's own encoder wrote; `KeysetExactly` says that this is what it takes.
- HTTP routing, CSRF, JSON decoding of requests, real WebSockets and the `setTimeout` scheduler.
- The other mock endpoints (threads, uploads, admin, search, cards, polls) and message edits, except the bot's own streamed updates.
- The production sync crate: only the mock hub, which speaks the same wire contract, is modelled.
- A `send` that calls back into the hub while it runs; a callback of another user of the scheduler is modelled by the calls it makes, following its timer.
- The hub and simulation objects hold the scheduler's clock and timers as a value; the scheduler as an object of its own is `ManualScheduler`.
- `resync` topics are a set in the model, not a sorted list; topic numbers have JavaScript's precision in the source and are unbounded here.
- `eventForViewer` is any function that keeps an event's number, topic and kind, and in `ClientView` shows every created message of a room; what the hub may admit is fixed over a run, and so are memberships where hub and read state are joined.
- The bot's reply to a message is part of the simulation's model and is not started by `Workspace`.
- Exact equality of the mention count with the unread mentions, which the code does not maintain.
- Random draws in the simulation and the seed are arbitrary values in their ranges; message texts are not modelled.
- Whether the host takes a bot reply's post is an arbitrary choice per reply.
- A post whose duplicate lies in a thread the viewer lost access to: threads are not part of the model.
- SHA-256 itself: injectivity is about the bytes it is fed. Lone surrogates in file names are not covered.
- `String::from_utf8` in the cursors is part of the timestamp and number parsers, which accept ASCII only; white space outside ASCII around a timestamp is not trimmed in the model.
- The calendar library is modelled by the proleptic Gregorian calendar and its range; fixed-width overflow of intermediate values is merged into the final range check.
- The SQL of the paged lists is the query's order and key comparison; which rows it selects, the expiry write and the rendering of a row are parameters.
- The generated Rust text of route segments, with its escapes, and the `sentence` wording of SLA errors.
