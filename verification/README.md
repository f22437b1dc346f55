# Verification of the RepoMesh Agent Bridge and its small cores

This project models, in Dafny 4.11, the parts of RepoMesh whose correctness is an
argument rather than a glance, and proves what those parts are for.

**Plans.** A repository plan is a multigraph of tasks. `TaskDag` proves Kahn's
algorithm as written against "some walk returns to where it began"; `PlanCheck` proves
that a plan is accepted exactly when all its tasks can be run in some order that puts
every prerequisite first; `Envelope` proves what the safety envelope of an assignment
package lets through, and `PathRoots` what its prefix test means for directories.

**The room protocol.** One Bridge process serves one worker over a state file, an
operating-system lock and a Matrix homeserver. `BridgeStore`, `InboxTurns`,
`InstanceLock` and `OutboxSends` hold the classes, each method proved against a function
of the old state. `Protocol` puts the same functions into a transition system: any number
of processes, a crash as a step that keeps the disk and clears the process, a request
that can arrive late or never and whose answer can be lost, a homeserver that answers a repeated transaction id with the
first event (the "Transaction identifiers" rule of the Matrix Client-Server API).
`RoomInvariants` proves what every step keeps; `RoomSafety` proves, for every run, one live
turn, which asks what one addressed event asked, one message per intent, with the text it was
given and in the room it was given for, nothing addressed to the worker passed without an
outcome on record, and what a final outcome says about its answer. `RoomRuns` holds the runs that show where a wish fails.
`TurnLedger` proves the ledger's rules with any number of turns live at once, whatever the
seen set lets through.

**Wire documents.** `Wire`, `LeaderWire` and `MemberWire` hold readers and writers over
parsed JSON. `LeaderFits` and `MemberWire` state the limits of the schemas on the records and
prove that exactly the records within them are ever read, each from its own output again;
`LeaderRoundTrips` draws the conclusions, and `LeaderFits` ties the graph and the tasks of an
accepted plan to its document, index by index.

**Small cores.** `LeaderNotice` (the notice scanner), `Scoring` (prediction metrics in
exact arithmetic), `PercentCoding` and `HashRoutes` (the console's routes, with section 2.1
of RFC 3986 over UTF-8), `Seeding` (hierarchy-safe registration), `EnvMerge` (the env-file
merge) and `Aggregation` (the per-repository view).

`Common`, `Text`, `Sorting`, `Names`, `Uuids`, `JsonValues` and `LeaderRecords` are the
shared vocabulary.

## Where the code and its description part

Each of these is a theorem below, not a remark.

- **Receipts.** The plan and review receipts check that identifiers are unique as written
  and parse them afterwards. A receipt naming one identifier in two letter cases is
  accepted and its own output is refused. `PlanReceiptRoundTrip` and
  `ReviewReceiptRoundTrip` give the exact condition, `TwoSpellingsBreakReceipts` the input.
- **Timed-out turns.** The supervisor logs that a timed-out turn "stays answerable". The
  ledger does forget it (`AnswerableAgain`), but the round then commits and the cursor
  passes the event; a homeserver that resumes at the cursor never brings it back
  (`PassedEventsAreNotOffered`, and a run in `TimedOutTurnIsNotOffered`). What is guaranteed is the time-out note in the outbox
  (`NoAddressedEventIsLost`).
- **Baseline events.** History adopted at the first sync stays history as long as the
  homeserver resumes at the committed position. If it redelivers from earlier, an event of
  the baseline becomes a turn exactly when the bounded seen set has evicted it
  (`BaselineStaysPast`, and a run in `BaselineEventComesBack`): the ledger, which backs the seen set for answered turns, has no
  row for an event that was never a turn.
- **Observation ids.** Room and event ids are joined with `|`, so two messages share an
  observation id exactly when those two run together to the same text
  (`ObservationMaterialCollides`); transaction ids do not have this weakness
  (`TxnMaterialInjective`).
- **Issue routes.** `openIssue` prints the id unencoded. The route reads back exactly when
  the id is one path segment that decoding leaves alone and no reserved page shadows it
  (`IssueRoundTrip`); an issue called `list` opens the list (`ListOpensTheList`).
- **Dead letters.** A refusal is described as a message the room will never take. An answer
  that cannot be read is graded the same way, so the room may show a dead letter
  (`DeadLetterWasPosted`), and a delayed request may even post it afterwards
  (`DeadLetterIsPostedLate`). `DeadLetterIsNeverShownIff` says when it never will.
- **Answers that cannot be stored.** The status a session reports is settled even when
  writing its answer down raises, which a text the state file cannot encode is enough for.
  The turn is then recorded completed with nothing in the outbox, refused as settled from
  then on, and never answered (`UnstoredAnswerIsLost`). `AnswerIsStoredIff` is the exact
  condition, and `NoAddressedEventIsLost` counts such a turn as over.
- **Rosters with two leaders.** The loader accepts two leaders of one repository, and the
  directory's scope key does not (`TwoLeadersCannotBeSeeded`).
- **Path roots.** Roots are compared as text after dots and slashes are dropped from the
  head of both sides. An admitted path lies in its root's directory exactly when the same was
  dropped from both and the prefix ends where a component does (`UnderWrittenRootIff`,
  `UnderNormalRootIff`); which leads keep it inside is `AdmittedStaysInsideIff`. The paths
  for which it does not are families: `SiblingIsAdmitted`, `ClimberIsAdmitted`,
  `LeadingClimberIsAdmitted`, `AbsoluteIsAdmitted`, `OtherLeadIsAdmitted`. A root that
  normalises to nothing admits every path.

## Model

| member | source | states |
|---|---|---|
| TaskDag.HasCycle | src/repomesh_agent_bridge/contracts.py:1831-1848 | terminates on every graph; fails exactly on an undeclared endpoint; on distinct nodes answers true exactly when a directed cycle exists; the drained nodes are distinct and each comes after everything it waits for, and on false they are a complete schedule |
| TaskDag.CountEdges | src/repomesh_agent_bridge/contracts.py:1834-1838 | both dictionaries filled edge by edge: how many edges each node waits for (repeats counted) and who waits for it, in order; fails exactly on an undeclared endpoint |
| TaskDag.RootsOf | src/repomesh_agent_bridge/contracts.py:1839 | the first frontier: every declared node with nothing to wait for, once |
| TaskDag.Release | src/repomesh_agent_bridge/contracts.py:1844-1847 | releasing lowers each count by the number of released edges and queues exactly those that reach zero, so no node is queued twice |
| TaskDag.DrainedNode | src/repomesh_agent_bridge/contracts.py:1841-1847 | one turn of the loop keeps the loop state: counts equal edges from undrained nodes, the frontier is exactly the undrained nodes at zero, no node drains twice, and the undrained set shrinks |
| TaskDag.KahnConclusion | src/repomesh_agent_bridge/contracts.py:1848 | with nothing ready, the drained count decides between a cycle and a schedule; a duplicated node always counts as a cycle |
| TaskDag.StuckMeansCyclic | src/repomesh_agent_bridge/contracts.py:1831-1848 | a non-empty set in which every node is fed from inside contains a directed cycle |
| TaskDag.ScheduleExcludesCycles | src/repomesh_agent_bridge/contracts.py:1831-1848 | an order with every edge pointing forward rules out every cycle |
| TaskDag.SchedulableIffAcyclic | src/repomesh_agent_bridge/contracts.py:1831-1848 | over declared endpoints a schedule exists exactly when no walk closes |
| PlanCheck.CheckPlan | src/repomesh_agent_bridge/contracts.py:2010-2036 | accepts exactly the plans whose nodes are distinct, correspond one-to-one to the tasks, and whose tasks can all be run in a prerequisite-first order; each refusal is characterised, and the cycle check never meets an undeclared key |
| PlanCheck.ExecutableIff | src/repomesh_agent_bridge/contracts.py:2020-2036 | once nodes are distinct and in bijection with tasks, an execution order exists exactly when endpoints are declared and no cycle closes |
| PlanCheck.ScheduleRuns | src/repomesh_agent_bridge/contracts.py:2023-2036 | a node schedule carries over to an order of all worker tasks |
| PlanCheck.RunIsSchedule | src/repomesh_agent_bridge/contracts.py:2023-2036 | an order of all worker tasks carries back to a node schedule, and shows every endpoint declared |
| Sorting.SortedEqual | src/repomesh_agent_bridge/contracts.py:2024 | comparing the two sorted lists is comparing the contents with their multiplicities |
| Sorting.AtMostIff | scripts/bridge-e1/fetch_matrix_tokens.py:99 | the order the sorted lists are in: a beginning before what it begins, and otherwise the first difference of code points decides |
| Envelope.WithinRoots | src/repomesh_agent_bridge/contracts.py:2408-2424 | the early-return loop answers true exactly when some root, normalised, is a prefix of the normalised path (an empty normal form admits everything) |
| Envelope.NormalRootDropsStars | src/repomesh_agent_bridge/contracts.py:2418 | removing the two suffixes drops exactly the last three trailing stars, or all when fewer |
| Envelope.RootAdmitsItself | src/repomesh_agent_bridge/contracts.py:2408-2424 | a path spelled like an allowed root is admitted, stars and leading dots included |
| Envelope.CoveringAdmits | src/repomesh_agent_bridge/contracts.py:2408-2424 | replacing roots by roots that cover them loses no path |
| Envelope.CoveringIsExact | src/repomesh_agent_bridge/contracts.py:2408-2424 | and only covering roots do, when no old normal form ends in white space |
| PathRoots.UnderNormalRootIff | src/repomesh_agent_bridge/contracts.py:2408-2424 | for an admitted path and a root that is not empty once normalised, measured against that normal form: the path lies in the directory, component by component, exactly when no dot or slash was dropped from its head and the prefix ends where a component does |
| PathRoots.UnderWrittenRootIff | src/repomesh_agent_bridge/contracts.py:2408-2424 | measured against the root as written: exactly when the same was dropped from both heads and the prefix ends where a component does |
| PathRoots.LeadsDropped | src/repomesh_agent_bridge/contracts.py:2408-2424 | a path and a root are each the dots and slashes dropped from the head followed by what is compared |
| PathRoots.AdmittedStaysInsideIff | src/repomesh_agent_bridge/contracts.py:2408-2424 | when the prefix ends where a component does and nothing past the lead climbs, the path leads to a place inside the root as written exactly when both leads start out from the same place: the same top, the same names passed through, the same dots before the first name |
| PathRoots.SiblingIsAdmitted | src/repomesh_agent_bridge/contracts.py:2408-2424 | a sibling sharing the first letters is admitted and does not lie in the directory |
| PathRoots.ClimberIsAdmitted | src/repomesh_agent_bridge/contracts.py:2408-2424 | a path that climbs out of the directory is admitted and resolves outside it |
| PathRoots.LeadsAreIgnored | src/repomesh_agent_bridge/contracts.py:2408-2424 | dots and slashes in front of a path or of a root change nothing about admission |
| PathRoots.LeadingClimberIsAdmitted | src/repomesh_agent_bridge/contracts.py:2408-2424 | a path that climbs before it starts, as ../src/x under src, is admitted and leads nowhere inside |
| PathRoots.AbsoluteIsAdmitted | src/repomesh_agent_bridge/contracts.py:2408-2424 | an absolute path, as /etc/passwd under etc, is admitted and leads outside |
| PathRoots.OtherLeadIsAdmitted | src/repomesh_agent_bridge/contracts.py:2408-2424 | whatever differs from the directory in its lead alone, as .git/config under git and github/x under .github, is admitted and lies elsewhere |
| Envelope.RefusePlan | src/repomesh_agent_bridge/contracts.py:1651-1686 | returns nothing exactly when every assignee is on the roster, every path lies under a root and every envelope command is kept; otherwise the refusal names the first offending task and the first bound it breaks |
| Envelope.WideningKeepsPlans | src/repomesh_agent_bridge/contracts.py:1651-1686 | a larger roster, covering roots and fewer commands never turn an accepted plan into a refused one |
| Envelope.RefuseReview | src/repomesh_agent_bridge/contracts.py:1688-1705 | returns nothing exactly when evidence is present and every finding names an evidenced task; otherwise names the first finding that does not |
| Names.TxnMaterialInjective | src/repomesh_agent_bridge/outbox.py:115-137 | the digested material determines event id, lane and ordinal even when the event id contains the separator |
| Names.TxnIdInjective | src/repomesh_agent_bridge/outbox.py:115-137 | under a collision-free digest two transaction ids are equal exactly when event id, lane and ordinal are |
| Names.ObservationMaterialCollides | src/repomesh_agent_bridge/outbox.py:140-156 | two observation ids share their material exactly when worker, lane and ordinal agree and room and event id run together to the same text |
| Names.ObservationMaterialInjective | src/repomesh_agent_bridge/outbox.py:140-156 | with no bar in the event ids the material determines worker, room, event, lane and ordinal |
| Names.ObservationNamesCanCollide | src/repomesh_agent_bridge/outbox.py:140-156 | two different rooms and events with one observation id |
| Names.DecimalInjective | src/repomesh_agent_bridge/outbox.py:134-137 | different ordinals are written differently |
| BridgeStore.RememberedBounds | src/repomesh_agent_bridge/state.py:440-462 | the seen set stays distinct and bounded, holds only committed ids, and forgets none until the bound is reached |
| BridgeStore.NotedAppends | src/repomesh_agent_bridge/state.py:445-452 | noting a batch appends the ids that are new, each once, in the order of their first occurrence |
| BridgeStore.RememberedIsNewest | src/repomesh_agent_bridge/state.py:453-462 | the ids let go are the oldest: what is remembered is the end of what was seen followed by what is new, and all of it while there is room |
| BridgeStore.InsertAllGrows | src/repomesh_agent_bridge/state.py:528-568 | inserting keeps every row in place, only appends, and keeps both unique constraints |
| BridgeStore.InsertAllAdds | src/repomesh_agent_bridge/state.py:528-568 | every new row is one of the offered intents, unsettled |
| BridgeStore.MarkingGrows | src/repomesh_agent_bridge/state.py:664-700 | marking sent or refused keeps names, messages, order and earlier marks |
| BridgeStore.MarkingSettlesOne | src/repomesh_agent_bridge/state.py:664-700 | under the unique constraint marking touches one row or none, and afterwards no row of that name is owed |
| BridgeStore.BridgeState.Commit | src/repomesh_agent_bridge/state.py:403-462 | one transaction: the batch is remembered with the oldest ids evicted, the cursor moves, the first baseline time stays and the watermark never falls |
| BridgeStore.BridgeState.RecordTurn | src/repomesh_agent_bridge/state.py:500-512 | the ledger row is set and no other |
| BridgeStore.BridgeState.ForgetTurn | src/repomesh_agent_bridge/state.py:514-522 | the ledger row is gone and no other |
| BridgeStore.BridgeState.EnqueueSends | src/repomesh_agent_bridge/state.py:528-568 | INSERT OR IGNORE row by row in one transaction, with the number of rows really written |
| BridgeStore.BridgeState.EnqueueSendAt | src/repomesh_agent_bridge/state.py:570-629 | a taken position either already holds the same payload, and nothing changes, or refuses; a free one takes the row; any refusal leaves the file as it was |
| BridgeStore.BridgeState.PendingSends | src/repomesh_agent_bridge/state.py:631-646 | the rows neither sent nor refused, in insertion order |
| BridgeStore.BridgeState.SendsForTrigger | src/repomesh_agent_bridge/state.py:648-662 | the rows of one trigger, in insertion order |
| BridgeStore.BridgeState.RecordSent | src/repomesh_agent_bridge/state.py:664-680 | exactly the pending row of that name takes the event id and every other row is equal; with no such row nothing changes, and the answer says which |
| BridgeStore.BridgeState.RecordRefused | src/repomesh_agent_bridge/state.py:682-700 | exactly the pending row of that name is put down and every other row is equal; with no such row nothing changes, and the answer says which |
| InboxTurns.SelectedIff | src/repomesh_agent_bridge/inbox.py:126-169 | a trigger is selected exactly for an event in an allowed room, from somebody else, mentioning this worker, and not in the seen set |
| InboxTurns.SelectedAsks | src/repomesh_agent_bridge/inbox.py:140-156 | in batch order, one trigger for each unseen event from a confirmed room, by somebody else, mentioning this worker, and none besides; each carries the event's own words, sender, room, id and time, and the thread is its root or, outside a thread, its own id |
| InboxTurns.NewestIsLatest | src/repomesh_agent_bridge/inbox.py:257-258 | the watermark of a batch is the timestamp of one of its events and of none an earlier one |
| InboxTurns.Inbox.RecordBaseline | src/repomesh_agent_bridge/inbox.py:103-122 | the whole batch becomes the seen past in one commit, no turn is recorded, no second baseline is due, the first baseline time stays, and the watermark is no earlier than any event |
| InboxTurns.Inbox.Triggers | src/repomesh_agent_bridge/inbox.py:126-169 | the selection in batch order, without touching the state: one trigger per unseen addressed event, carrying that event's own prompt, sender, room, id, time and thread |
| InboxTurns.Inbox.Claim | src/repomesh_agent_bridge/inbox.py:173-194 | the reason is decided by ledger row and live set; a grant writes in flight under room, thread and event id and goes live, a refusal changes nothing |
| InboxTurns.Inbox.Settle | src/repomesh_agent_bridge/inbox.py:196-218 | the claim is always released; completed, failed and blocked are recorded as such, a time-out erases the row, cancelled and interrupted become interrupted, an unknown status fails and records nothing |
| InboxTurns.Inbox.Commit | src/repomesh_agent_bridge/inbox.py:222-234 | the batch is acknowledged in one transaction, the next sync resumes behind it, whether a baseline is due does not change, and the watermark is no earlier than before nor than any event of the batch |
| TurnLedger.LiveKeysInFlight | src/repomesh_agent_bridge/inbox.py:173-218 | over every history of claims of any turns, live settles and crashes, live keys are in flight in the ledger |
| TurnLedger.TerminalForever | src/repomesh_agent_bridge/inbox.py:173-218 | a finished turn keeps its outcome and every later claim of it is refused as settled |
| TurnLedger.RefusedIff | src/repomesh_agent_bridge/inbox.py:173-194 | a claim is refused exactly when the turn is finished or live in this process |
| TurnLedger.AnswerableAgain | src/repomesh_agent_bridge/inbox.py:173-218 | a time-out, a cancellation and a crash each leave the turn claimable at once, as new, retry and reauthorized |
| InstanceLock.InstanceLock.Acquire | src/repomesh_agent_bridge/instance_lock.py:80-97 | succeeds exactly when this object holds nothing and nobody holds the file; a failure leaves both as they were |
| InstanceLock.InstanceLock.Release | src/repomesh_agent_bridge/instance_lock.py:99-108 | drops what was held, never somebody else's lock, and may be called at any time |
| OutboxSends.InsertAllAppendsMissing | src/repomesh_agent_bridge/outbox.py:296-323 | under derived names an enqueue is exactly: keep the outbox, append the rows whose position was free |
| OutboxSends.ReplayAddsOnlyTheTail | src/repomesh_agent_bridge/outbox.py:258-323 | enqueueing xs and then ys for one trigger and lane, from any outbox: xs takes the free positions, and the replay adds only rows past xs whose position was free to begin with, whatever the clocks |
| OutboxSends.FreshLaneReplay | src/repomesh_agent_bridge/outbox.py:258-323 | in a lane that held nothing the result is xs as first written followed by the surplus tail of ys |
| OutboxSends.MissingIff | src/repomesh_agent_bridge/state.py:528-568 | the rows an enqueue adds are exactly those it lists at a free position |
| OutboxSends.ReplayIsNoOp | src/repomesh_agent_bridge/outbox.py:258-323 | from any outbox, enqueueing again an answer no longer than the first changes nothing |
| OutboxSends.EnqueuedHolds | src/repomesh_agent_bridge/outbox.py:296-323 | after an enqueue every position of the answer is occupied |
| OutboxSends.EnqueuedSays | src/repomesh_agent_bridge/outbox.py:387-400 | the message of an answer at a free position is stored with its own kind and text, for the room and thread of the destination, under the names its position derives |
| OutboxSends.EnqueuedWellNamed | src/repomesh_agent_bridge/outbox.py:368-400 | an enqueue keeps every row in a declared lane under the name its position derives, and only appends |
| OutboxSends.OtherLanesUntouched | src/repomesh_agent_bridge/outbox.py:258-323 | no other trigger and no other lane is affected |
| OutboxSends.OwedToTrigger | src/repomesh_agent_bridge/outbox.py:310-323 | what an enqueue returns is exactly that trigger's rows neither sent nor refused, whichever filter comes first |
| OutboxSends.Outbox.Enqueue | src/repomesh_agent_bridge/outbox.py:258-323 | refuses an undeclared lane without writing; otherwise inserts the rows by ordinal, each free position holding that message's kind and text for the given room and thread, and returns what the trigger is still owed |
| OutboxSends.Outbox.EnqueueAt | src/repomesh_agent_bridge/outbox.py:325-366 | on success the named position holds this message, kind and text, for this room and thread under its derived names; a free position takes exactly one new row; or the call fails and nothing changed |
| OutboxSends.Outbox.Pending | src/repomesh_agent_bridge/outbox.py:402-410 | everything owed to any room, oldest first |
| OutboxSends.Outbox.MarkSent | src/repomesh_agent_bridge/outbox.py:412-420 | settles the pending row of that name and tells whether there was one |
| OutboxSends.Outbox.MarkRefused | src/repomesh_agent_bridge/outbox.py:422-435 | the same for a dead letter |
| RoomInvariants.RunsAreSafe | src/repomesh_agent_bridge/supervisor.py:472-491 | every world of every run of the protocol satisfies every invariant the results below rest on |
| RoomSafety.OnlyTheHolderWrites | src/repomesh_agent_bridge/application.py:273-297 | whenever the disk changes, the process that changed it holds the lock before and after and is the only process |
| RoomSafety.OneLiveTurn | src/repomesh_agent_bridge/instance_lock.py:80-108 | across all processes at most one turn is live, and the ledger calls it in flight |
| RoomSafety.ClaimsAreHonest | src/repomesh_agent_bridge/inbox.py:173-194 | in a run no claim is refused as active, it is refused exactly when the turn is finished, and reauthorized means that no live process runs the turn |
| RoomSafety.FinishedForever | src/repomesh_agent_bridge/inbox.py:196-218 | a finished turn keeps its outcome to the end of the run and is never granted again, through any crashes |
| RoomSafety.OutboxHistory | src/repomesh_agent_bridge/outbox.py:258-323 | between any two moments of a run rows stay in place with their names and messages, marks are only added, new rows come after |
| RoomSafety.PostedAtMostOnce | src/repomesh_agent_bridge/outbox.py:258-323 | two messages, seen at any moments, that show two intents, stored at any moments, are one message exactly when the intents sit at one trigger, lane and ordinal: nothing is said twice and nothing swallows another |
| RoomSafety.PostedAsFirstStored | src/repomesh_agent_bridge/supervisor.py:559-599 | that message carries the body, room and thread of the intent first stored at the position |
| RoomSafety.AnswerIsPostedAsGiven | src/repomesh_agent_bridge/supervisor.py:629-654 | when an answer is given and the place of its k-th message is free, whatever any room shows under that name at any later moment is that message's text, in the room and thread of the turn |
| RoomSafety.RunMessageIsPostedAsGiven | src/repomesh_agent_bridge/outbox.py:325-366 | the same of a message of a governed run written at a free place |
| RoomSafety.EveryPostWasGiven | src/repomesh_agent_bridge/supervisor.py:559-599 | every message in a room was given by an earlier step of the run: it is a message of an answer, in the room and thread of the turn it answers, or of a governed run, where that run said |
| RoomSafety.RowWasGiven | src/repomesh_agent_bridge/outbox.py:368-400 | so was every row on disk, and it says what that step gave |
| RoomSafety.TurnAsksOneEvent | src/repomesh_agent_bridge/inbox.py:146-169 | a turn at hand asks what exactly one event of the log asked, word for word, of the same person, in the same room and thread, and that event is addressed to this worker |
| RoomSafety.EveryPostWasStored | src/repomesh_agent_bridge/supervisor.py:559-599 | every room message is the text of a stored intent in a declared lane under its derived name |
| RoomSafety.OwedUntilMarked | src/repomesh_agent_bridge/outbox.py:402-435 | an intent stays pending through every crash, restart and replay until it is marked sent or refused |
| RoomSafety.MarksAreTrue | src/repomesh_agent_bridge/outbox.py:412-420 | a row marked sent is in its room as stored under the recorded event, and no row is both delivered and a dead letter |
| RoomSafety.DeadLettersStaySilent | src/repomesh_agent_bridge/supervisor.py:581-594 | once no request for it is under way, nothing is posted or withdrawn under a dead letter's name to the end of the run |
| RoomSafety.DeadLetterIsNeverShownIff | src/repomesh_agent_bridge/outbox.py:422-435 | told when an intent is put down: no continuation of the run ever shows it exactly when its room does not show it yet and no request for it is under way |
| RoomRuns.DeadLetterWasPosted | src/repomesh_agent_bridge/adapters/matrix.py:189-215 | a run in which a message is posted, its answer cannot be read, and its intent becomes a dead letter |
| RoomRuns.DeadLetterIsPostedLate | src/repomesh_agent_bridge/supervisor.py:559-599 | a run in which a delayed request posts a message after its intent was put down |
| RoomSafety.NoAddressedEventIsLost | src/repomesh_agent_bridge/inbox.py:220-234 | every event addressed to the worker between baseline and committed cursor has a final outcome or a time-out note on record |
| RoomInvariants.SyncSelectsAll | src/repomesh_agent_bridge/inbox.py:126-157 | a sync from at or before the cursor selects every addressed event from the cursor on |
| RoomSafety.UncommittedBatchComesBack | src/repomesh_agent_bridge/inbox.py:220-234 | a batch not committed is offered again in one piece, trigger for trigger, whatever crashes and restarts came between and wherever at or before its start the homeserver resumes; what arrived since comes after it, and each of its turns is granted or already over |
| RoomSafety.BaselineStaysPast | src/repomesh_agent_bridge/inbox.py:85-122 | no baseline event becomes a turn when the homeserver resumes at the cursor; on redelivery exactly those that are addressed and evicted do |
| RoomSafety.PassedEventsAreNotOffered | src/repomesh_agent_bridge/inbox.py:126-157 | wherever the homeserver resumes, a sync offers exactly the addressed events of its window that the cursor has not passed, and of those it has passed the ones the seen set has let go |
| RoomRuns.TimedOutTurnIsNotOffered | src/repomesh_agent_bridge/supervisor.py:743-751 | a run in which a turn times out, its round commits and the next sync offers nothing, although the ledger would grant the turn as new |
| RoomRuns.BaselineEventComesBack | src/repomesh_agent_bridge/inbox.py:103-122 | a run in which a baseline event is evicted from the seen set and becomes a turn on redelivery |
| RoomSafety.CursorOnlyAdvances | src/repomesh_agent_bridge/inbox.py:85-101 | a baseline is due until the first commit and taken once in the life of a state file; the position to resume from and the watermark only move forward |
| RoomSafety.FinishedMeansAnswered | src/repomesh_agent_bridge/supervisor.py:629-654 | a final outcome on the ledger has an earlier step that answered the turn with that status, tried to, or gave up on it as failed; outside the lane of governed runs all messages of the answer are in the outbox at every later time exactly when that step wrote them down or an earlier attempt had taken their places |
| RoomSafety.AcceptedIffStorable | src/repomesh_agent_bridge/supervisor.py:629-654 | short of a disk fault an answer is written down exactly when the state file can encode every text of it |
| RoomSafety.AnswerIsStoredIff | src/repomesh_agent_bridge/supervisor.py:629-654 | so, short of a disk fault, a turn that ended completed, blocked or failed has its whole answer in the outbox exactly when every text of it can be encoded or an earlier attempt had taken the places |
| RoomSafety.FinishedLanesStand | src/repomesh_agent_bridge/inbox.py:173-218 | from a final outcome on, the lanes a turn answers in neither gain nor lose a position: what was not written down by then never will be |
| RoomRuns.UnstoredAnswerIsLost | src/repomesh_agent_bridge/supervisor.py:629-654 | a run in which a turn is recorded completed with an empty outbox, refused as settled after the restart, and passed by the cursor |
| RoomSafety.AnswersStay | src/repomesh_agent_bridge/supervisor.py:629-654 | every message of an answer once given has its place in the outbox to the end of the run |
| Uuids.ParseUuidStable | src/repomesh_agent_bridge/contracts.py:346-357 | whatever spelling was read, prefixes, braces, hyphens and the looser forms of int() included, the printed identifier reads back as itself |
| Uuids.GroupedParses | src/repomesh_agent_bridge/contracts.py:346-357 | thirty-two hex digits in groups are read as their lower-case form |
| Uuids.SpellingsAgree | src/repomesh_agent_bridge/contracts.py:346-357 | the spelling without hyphens, the one in braces and the URN are read as the same identifier |
| Uuids.PrintedIff | src/repomesh_agent_bridge/contracts.py:346-357 | an identifier reads back as itself exactly when it is thirty-two digits in groups without a capital, and only such identifiers are ever read |
| Uuids.HexTextOf | src/repomesh_agent_bridge/contracts.py:346-357 | printing the number that hex digits stand for gives the digits back in lower case |
| Wire.ReadAllRoundTrip | src/repomesh_agent_bridge/contracts.py:1796-1829 | element-wise readers and writers that undo each other do so on whole arrays |
| Wire.ReadAllEach | src/repomesh_agent_bridge/contracts.py:1800-1822 | an array is read element by element, index by index, nothing dropped and nothing added |
| Wire.ReadAllWritten | src/repomesh_agent_bridge/contracts.py:1796-1829 | a writer its reader undoes on each element is undone on the whole array |
| Wire.UuidListRead | src/repomesh_agent_bridge/contracts.py:2342-2361 | a written identifier list is accepted again, unchanged, exactly when the identifiers and not only their spellings are distinct |
| LeaderRoundTrips.PackageRoundTrip | src/repomesh_agent_bridge/contracts.py:1561-1649 | every assignment package that was read, with roster, envelope, advisory context and optional evidence, reads back from its own output |
| LeaderRoundTrips.PackagesAreThoseThatFit | src/repomesh_agent_bridge/contracts.py:1561-1649 | a package is read from some document exactly when it is within the limits of the schema, stated on the record: lengths, printed identifiers, known phase and statuses, non-empty roster and roots, evidence by phase |
| LeaderFits.PackageWritten | src/repomesh_agent_bridge/contracts.py:1561-1649 | every package within those limits is read back, field for field, from its own output |
| LeaderFits.EvidenceByPhase | src/repomesh_agent_bridge/contracts.py:1543-1559 | a package that was read carries review evidence from review_due on and none before, where its document says null |
| LeaderRoundTrips.Advisory | src/repomesh_agent_bridge/contracts.py:1294-1341 | so does the advisory context, whose empty edge list is written as no field |
| LeaderRoundTrips.WorkerEvidenceAgain | src/repomesh_agent_bridge/contracts.py:1392-1469 | so does worker evidence, whose optional fields are written partly as null and partly not at all |
| LeaderRoundTrips.PlanRoundTrip | src/repomesh_agent_bridge/contracts.py:2038-2091 | every plan decision that was read reads back |
| LeaderRoundTrips.PlansAreThoseThatFit | src/repomesh_agent_bridge/contracts.py:2010-2091 | a plan is read from some document exactly when its lengths are within the schema, its identifiers are in printed form, it has nodes and tasks, and its tasks can be carried out |
| LeaderFits.PlanWritten | src/repomesh_agent_bridge/contracts.py:2038-2091 | every such plan is read back from its own output, graph, tasks, specification and provenance included |
| LeaderFits.PlanKeepsItsGraph | src/repomesh_agent_bridge/contracts.py:1800-1823 | an accepted document has as many nodes and edges as its plan, in the same order, with the same names and the same endpoints |
| LeaderFits.PlanKeepsItsTasks | src/repomesh_agent_bridge/contracts.py:1880-1919 | and as many tasks, in the same order, each with its node, assignee, title, instruction, paths, tests and database change |
| LeaderRoundTrips.ReviewRoundTrip | src/repomesh_agent_bridge/contracts.py:2147-2211 | every review decision that was read reads back, the rework rule included |
| LeaderRoundTrips.ReviewsAreThoseThatFit | src/repomesh_agent_bridge/contracts.py:2147-2211 | a review is read from some document exactly when it is within the limits of the schema, the rework rule included |
| LeaderFits.ReviewWritten | src/repomesh_agent_bridge/contracts.py:2147-2211 | every such review is read back from its own output |
| LeaderFits.ReworkSaysWhat | src/repomesh_agent_bridge/contracts.py:2147-2170 | a review that was read and demands rework says in some finding what is to be done again |
| LeaderRoundTrips.PlanReceiptRoundTrip | src/repomesh_agent_bridge/contracts.py:2228-2267 | a plan receipt reads back when its identifiers are distinct, and is refused when they are not |
| LeaderRoundTrips.ReviewReceiptRoundTrip | src/repomesh_agent_bridge/contracts.py:2285-2339 | the same for a review receipt |
| LeaderFits.PlanReceiptWritten | src/repomesh_agent_bridge/contracts.py:2228-2267 | every plan receipt within the limits whose identifiers are distinct is read back from its own output |
| LeaderFits.ReviewReceiptWritten | src/repomesh_agent_bridge/contracts.py:2285-2339 | so is every review receipt |
| LeaderRoundTrips.TwoSpellingsBreakReceipts | src/repomesh_agent_bridge/contracts.py:2342-2361 | one identifier in two letter cases: accepted, and refused from its own output |
| MemberWire.EnrollmentAsRoundTrip | src/repomesh_agent_bridge/contracts.py:607-727 | each version's reader takes its own output back with the same record |
| MemberWire.EnrollmentRoundTrip | src/repomesh_agent_bridge/contracts.py:708-769 | so does the reader that lets the document choose the version |
| MemberWire.EnrollmentsAreThoseThatFit | src/repomesh_agent_bridge/contracts.py:604-769 | an enrollment is read from some document of its version exactly when its texts, identifiers, rooms, addresses, credential references and role are within the limits of the schema |
| MemberWire.EnrollmentWritten | src/repomesh_agent_bridge/contracts.py:607-727 | every such enrollment is read back, field for field, from its own output |
| MemberWire.MatrixIdIs | src/repomesh_agent_bridge/contracts.py:165-166 | a text is a Matrix identifier exactly when it is its sigil, a non-empty local part without a colon, a colon, and a non-empty server on one line, perhaps with a line feed at the end |
| MemberWire.EnrollmentVersionsExclude | src/repomesh_agent_bridge/contracts.py:620-641 | no document is accepted as both versions |
| MemberWire.OtherReaderRefuses | src/repomesh_agent_bridge/contracts.py:607-641 | each version's reader refuses the other version's output |
| MemberWire.LeadersAreVersionTwo | src/repomesh_agent_bridge/contracts.py:729-769 | an accepted repository leader came from a version-two document, goes back to one, and is refused by the version-one reader |
| MemberWire.BindingRoundTrip | src/repomesh_agent_bridge/contracts.py:802-883 | bindings read back in their version, are refused by the other, and are workers in version one |
| MemberWire.BindingsAreThoseThatFit | src/repomesh_agent_bridge/contracts.py:777-883 | a binding is read from some document of its version exactly when it is within the limits of the schema |
| MemberWire.BindingWritten | src/repomesh_agent_bridge/contracts.py:802-883 | every such binding is read back, field for field, from its own output |
| LeaderNotice.ParseLeaderNotice | src/repomesh_agent_bridge/leader_lane.py:85-118 | the loop that fills two sets returns a notice exactly when the routes of the text name one task and one action, in whatever order and however often |
| LeaderNotice.NoticeByText | src/repomesh_agent_bridge/leader_lane.py:85-118 | a text reads as a notice exactly when it quotes a route, every route it quotes is this task's, the plan endpoint follows some route exactly when the notice is for a plan, and the review endpoint exactly when it is for a review |
| LeaderNotice.OneRouteDecides | src/repomesh_agent_bridge/leader_lane.py:110-147 | the one route of a text decides: followed by /plan it reads as a plan notice, followed by /review as a review notice, and bare as nothing |
| LeaderNotice.ActionsQuoted | src/repomesh_agent_bridge/leader_lane.py:135-147 | plan is among the actions exactly when some quoted route is followed by /plan, review likewise, and there is no third |
| LeaderNotice.TasksQuoted | src/repomesh_agent_bridge/leader_lane.py:110-113 | the tasks named are those whose routes the text quotes |
| LeaderNotice.ScanFindsAll | src/repomesh_agent_bridge/leader_lane.py:58-61 | the leftmost, non-overlapping scan misses no occurrence of the route |
| LeaderNotice.NoOverlap | src/repomesh_agent_bridge/leader_lane.py:58-61 | two occurrences of the route never overlap |
| LeaderNotice.QuotedIdIsRead | src/repomesh_agent_bridge/leader_lane.py:113 | the lower-case text a quoted identifier is kept as is what reading it as a UUID prints |
| LeaderNotice.RoutesOfJoinedText | src/repomesh_agent_bridge/leader_lane.py:58-61 | the routes of two texts joined by a line break are those of the first followed by those of the second |
| LeaderNotice.JoinedNotices | src/repomesh_agent_bridge/leader_lane.py:85-118 | two notices in one message are that notice when they agree and none when they do not |
| LeaderNotice.ReadingDependsOnSets | src/repomesh_agent_bridge/leader_lane.py:110-118 | texts naming the same task ids and the same actions have the same reading |
| LeaderNotice.OneReading | src/repomesh_agent_bridge/leader_lane.py:85-118 | a text has one reading |
| LeaderNotice.LineBreakEnds | src/repomesh_agent_bridge/leader_lane.py:135-147 | a line break neither completes a route nor changes the action it names |
| Scoring.MetricsAreFractions | datasets/train-ticket/scoring.py:102-157 | every metric lies in [0,1], and above the epsilon cut F1 lies between precision and recall |
| Scoring.RecallFromHits | datasets/train-ticket/scoring.py:141-151 | each tier's recall is its hits over its size, one for an empty tier, and five times the recall is three times the direct tier's plus the two others' |
| Scoring.PrecisionFromHits | datasets/train-ticket/scoring.py:153-157 | precision is the hits in any tier over the size of the prediction, nothing for an empty one, and F1 times the sum of precision and recall is twice their product above the cut |
| Scoring.ListsSay | datasets/train-ticket/scoring.py:169-175 | what is listed as predicted, missed in a tier, or extra |
| Scoring.PerfectScores | datasets/train-ticket/scoring.py:124-157 | recall is one exactly when everything relevant is predicted, precision exactly when something is and nothing else is |
| Scoring.MissesExplainScores | datasets/train-ticket/scoring.py:159-176 | nothing missed in a tier is full recall there, and nothing extra is full precision |
| Scoring.RelevantNeverHurts | datasets/train-ticket/scoring.py:124-157 | predicting one more ground-truth repository lowers neither recall nor precision nor F1 |
| Scoring.IrrelevantNeverHelps | datasets/train-ticket/scoring.py:124-157 | predicting any other leaves recall as it was and raises neither precision nor F1 |
| Scoring.BuildSummary | datasets/train-ticket/scoring.py:531-585 | every case in order under its own labels, scored with the prediction made for it or as if nothing had been predicted; overall means, one group per difficulty that occurs and one per anti-bias label, each the means of its cases; however the labels are listed, their count-weighted figures and their counts add up to the overall ones |
| Scoring.GroupsTakeTheirOwn | datasets/train-ticket/scoring.py:555-563 | a group holds exactly the cases with its label, as often as they occur |
| Scoring.CaseCountsOnce | datasets/train-ticket/scoring.py:545-551 | one more case moves each count-weighted mean of its group by its own figure |
| Scoring.GroupsMakeUpTheWhole | datasets/train-ticket/scoring.py:531-563 | the group sums add up to the overall sum, however the groups are listed |
| Scoring.WeightedMeansAgree | datasets/train-ticket/scoring.py:408-409 | the groups of a report account for its overall figures: count-weighted means and counts add up |
| PercentCoding.DecodeEncode | frontend/src/ConsoleShell.tsx:254-257 | decoding undoes encodeURIComponent on every text of Unicode scalar values |
| PercentCoding.EncodeHidesSeparators | frontend/src/ConsoleShell.tsx:254-257 | encoded text consists of unreserved characters and percent signs, so no path separator survives |
| PercentCoding.Utf8Undone | frontend/src/routes.ts:51-57 | the escapes of one character decode to it, whatever follows, in each of the four UTF-8 widths |
| PercentCoding.CharAtIff | frontend/src/routes.ts:51-57 | a character is read exactly from the escapes of its own UTF-8 form: nothing overlong, no surrogate and no stray byte is taken for one |
| PercentCoding.DecodePlain | frontend/src/routes.ts:51-57 | text without a percent sign decodes to itself |
| PercentCoding.DecodeShrinks | frontend/src/routes.ts:51-57 | decoding never lengthens a text |
| HashRoutes.RoomRoundTrip | frontend/src/routes.ts:59-72 | the hash openRoom prints reads back as the same pair exactly when the room id is not empty and the issue id is one path segment that decoding leaves alone |
| HashRoutes.PlainIssuesRoundTrip | frontend/src/routes.ts:59-72 | in particular for every issue id without slash, question mark or percent sign and every non-empty room id |
| HashRoutes.IssueRoundTrip | frontend/src/routes.ts:74-103 | the hash openIssue prints reads back as the issue exactly when the id is one segment that decoding leaves alone and no reserved page shadows it |
| HashRoutes.ListOpensTheList | frontend/src/routes.ts:74-77 | the hash printed for an issue called list opens the list |
| HashRoutes.NavOpens | frontend/src/routes.ts:7-16 | every entry of the navigation opens its own page and nothing inside it |
| HashRoutes.SectionOpens | frontend/src/routes.ts:115-126 | a known section of the observation page opens there and an unknown one opens the page |
| HashRoutes.LocalCliOpens | frontend/src/routes.ts:105-113 | the page of the local command line opens inside the settings |
| Seeding.AssertUnique | scripts/bridge-e1/e1_config.py:277-285 | accepts exactly the rosters with distinct keys, agent ids and resource names, and otherwise names a field two members share |
| Seeding.AssertHierarchy | scripts/bridge-e1/e1_config.py:288-303 | accepts exactly the rosters in which every worker names a leader of its own repository, and otherwise names a worker without a leader or with one of another repository |
| Seeding.ByKeyFinds | scripts/bridge-e1/e1_config.py:141-145 | in an accepted roster looking a member up by its key finds that member |
| Seeding.SeedOne | scripts/bridge-e1/seed_members.py:143-166 | one member is verified against the directory or inserted as an active agent of the organization with its own role, repository, paths and resource under its parent, keeping the directory closed under leader references; a failure says whether the entry on file differs or the directory refused |
| Seeding.Seed | scripts/bridge-e1/seed_members.py:115-168 | every directory along the way is closed, one insertion apart, also when the run stops; old entries are never changed and scope keys stay unique; it succeeds exactly when the leader is ready, every member is as described or insertable, and of two leaders of one repository at most one is missing; then every member is on file with its role, organization, repository, paths and resource, active, and in its place: a worker under the leader of its repository its line names, that one under the organization's leader |
| Seeding.WantedIff | scripts/bridge-e1/seed_members.py:48-66 | an entry is the one the roster describes exactly when it is active, carries the member's organization, repository, paths and resource, is a repository leader exactly when the member leads and a worker otherwise, holds the repository's seat exactly when it leads, and refers to the organization's leader or to the leader its line names |
| Seeding.RosterOnFile | scripts/bridge-e1/seed_members.py:138-167 | a directory holding every member as described holds the chain of command: a worker's entry refers to an active leader of the same repository, and that one to the active leader of the organization |
| Seeding.TwoLeadersCannotBeSeeded | src/repomesh/modules/agent_directory/infrastructure/models.py:15-24 | a roster naming two leaders of one repository, which the loader accepts, fails that condition in every directory with unique scope keys, whatever is on file |
| Seeding.SeedTwice | scripts/bridge-e1/seed_members.py:138-167 | after a successful run a second run inserts nothing and objects to nothing, whatever the database would refuse |
| Seeding.ParentOnFile | scripts/bridge-e1/seed_members.py:135-146 | with leaders first, a member's parent is known and on file when the member is reached |
| Seeding.NothingInserted | scripts/bridge-e1/seed_members.py:138-167 | a run that ends with the entries it began with inserted nothing |
| EnvMerge.MergeEnv | scripts/bridge-e1/fetch_matrix_tokens.py:82-101 | the loops write exactly the kept lines without trailing blanks, then one assignment per update by name |
| EnvMerge.WrittenInOrder | scripts/bridge-e1/fetch_matrix_tokens.py:97-101 | the lines kept come first and then one assignment name=value for each update, in ascending order of names |
| EnvMerge.NameBeforeEquals | scripts/bridge-e1/fetch_matrix_tokens.py:93 | a line defines what stands before its first equals sign, white space aside |
| EnvMerge.NameWithoutEquals | scripts/bridge-e1/fetch_matrix_tokens.py:93 | a line without one defines all its text, white space aside |
| EnvMerge.UpdatesDefineOnce | scripts/bridge-e1/fetch_matrix_tokens.py:82-101 | each updated name is defined by exactly one line, with its new value |
| EnvMerge.OldDefinitionGoes | scripts/bridge-e1/fetch_matrix_tokens.py:92-96 | an old definition of an updated name is gone, however it was spaced |
| EnvMerge.OtherLinesKept | scripts/bridge-e1/fetch_matrix_tokens.py:87-95 | the other lines come through in order, up to blank lines at the end |
| EnvMerge.MergeAbsorbs | scripts/bridge-e1/fetch_matrix_tokens.py:82-101 | a later merge covering the names of an earlier one leaves no trace of it |
| EnvMerge.MergeIdempotent | scripts/bridge-e1/fetch_matrix_tokens.py:82-101 | writing the same tokens twice is writing them once |
| EnvMerge.SplitJoined | scripts/bridge-e1/fetch_matrix_tokens.py:87-101 | lines written joined by line feeds are the lines read back |
| EnvMerge.LinesEnd | scripts/bridge-e1/fetch_matrix_tokens.py:92 | a line ends at its break, and a carriage return takes the line feed behind it along |
| Aggregation.DagExecution | frontend/src/viewmodel.ts:179-226 | a repository shows a status exactly when all its tasks do and null when they differ; its counts are the number of its tasks, of those that have not failed and whose evidence nothing confirms, and of the blockers these name; its reasons are, in task order, the summaries of its failed tasks |
| Aggregation.UnconfirmedCounted | frontend/src/viewmodel.ts:211-215 | the unverified count is the number of tasks of the repository that have not failed and whose evidence is there and unverified |
| Aggregation.BlockersCounted | frontend/src/viewmodel.ts:211-215 | the blocker count is the number of blockers those tasks name |
| Aggregation.ReasonsAre | frontend/src/viewmodel.ts:208-210 | the reasons are the summaries of the failed tasks of the repository that have one, each once, in task order |
| Aggregation.ViewIgnoresOrder | frontend/src/viewmodel.ts:179-226 | any order of the tasks gives the same statuses and counts |
| Aggregation.ReasonsPermute | frontend/src/viewmodel.ts:208-210 | and the same failure reasons in some order |
| Aggregation.CountsAddUp | frontend/src/viewmodel.ts:195-197 | task counts over the repositories sum to the number of tasks |
| Aggregation.UnverifiedWithinTasks | frontend/src/viewmodel.ts:211-215 | unverified tasks never outnumber tasks, and without one there is no blocker |
| Aggregation.FailedAddNothing | frontend/src/viewmodel.ts:73-75 | failed tasks add nothing to unverified or blocker counts |

## Left out

- Names.TxnIdInjective: the digest is a parameter assumed collision-free; the source keeps 40 hex digits of SHA-256, for which this is an idealisation, and uuid5 is treated the same way.
- Uuids.ParseUuidStable: models every ASCII spelling `UUID()` takes; the decimal digits and white space outside ASCII that Python's `int()` also tolerates are not modelled.
- MemberWire.EnrollmentRoundTrip: the URL parser is a predicate parameter.
- PercentCoding.DecodeEncode: text is a sequence of Unicode scalar values; JavaScript's lone surrogates, on which `encodeURIComponent` throws, cannot be written.
- RoomSafety.NoAddressedEventIsLost: tokens are positions in one append-only log in the order the adapter delivers it; the adapter's sorting of each batch by origin timestamp, truncated timelines, which the Bridge reports and does not backfill, and invitations are not part of the log.
- RoomSafety.PostedAtMostOnce: the homeserver remembers every transaction id forever; its own retention limits are outside the model.
- RoomInvariants.RunsAreSafe: the rooms preflight confirmed stay the same across restarts; a later preflight that confirms other rooms is not modelled. Sends may happen at any moment of a served process, in any order; the source drains oldest first at fixed points, so every run of the source is among the modelled runs, but the delivery order it chooses is not stated.
- Scoring.MetricsAreFractions: exact reals; floating-point rounding is not modelled, and the epsilon test is kept as written.
- Scoring.BuildSummary: the totals are stated for the anti-bias groups; the difficulty groups leave out cases of unlisted difficulties, so no such total holds for them. Lists printed in sorted order are kept as sets.
- Seeding.Seed: two requests racing on one directory are not modelled; the set of refused ids stands for every reason the database may have.
- EnvMerge.MergeIdempotent: file encoding, file modes and the parent directory are not modelled.
- HashRoutes.NavOpens: that an unknown hash falls back to the list is modelled in the parser, without a theorem of its own.
- The `RoomObservation` document, its timestamps, its rendering to room text, and the structured action-error document: long readers with no property beyond those proved for the others.
- JSON text parsing and duplicate keys: readers start from parsed documents; the contract's field names are an enumeration, any other name is carried as text.
- Refusal wording: an error names its kind and what it is about, not its sentence.
- Session references, run anchors, leases, the governed-run and leader lanes behind the supervisor: they end in the same enqueue and settle steps.
- Startup probes, credential resolution and the binding confirmation of `application.py`: only the order lock, state file, close, release is modelled.
- RoomSafety.AnswerIsStoredIff: what the state file can encode is a predicate parameter; texts with lone surrogates, the usual cause, are not texts of the model. A disk fault may strike any write of an answer and is a step of its own. In the lane of governed runs only the half from acceptance is stated, because later messages of the run have positions there.
- HTTP, Matrix, subprocess, database and file access: steps of the environment.
- The command-line entry points, the React components, label tables and migrations: nothing unbounded to prove.
