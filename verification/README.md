# Recall in Dafny

Recall is a sharded in-memory key/value server that speaks RESP2. Every owner thread holds one
shard and runs the commands whose keys it owns; a single coordinator runs the commands that span
owners by reserving, preparing, applying and releasing. This project models the server's core and
proves what it is for: whatever the interleaving, clients see one sequential table.

`dafny verify dfyconfig.toml` checks everything. The modules, bottom up:

- **Wire protocol.** `Framing` (the resumable request decoder, as a class over a growing buffer),
  `Replies` (the reply encoder, its size predictor and a reply reader), `Roundtrip`, `Decimal`.
  The format is that of the Redis serialization protocol specification, sections "Bulk strings"
  and "Arrays".
- **Commands.** `Commands` (operations), `Parser` (from request words to operations).
- **The shard.** `Expiry` (the indexed timer heap, a class updated in place), `Tables` (what one
  command decides and does, and the plain-map meaning of every command), `Shards` (the shard, a
  class), `Expiration`, `Counters`, `Sums`.
- **Several owners.** `Sharding` (splitting a command and joining the answers), `Sequential` (the
  whole engine as one table).
- **The engine.** `Machine` is the engine as a state machine: owner loops with data queue, control
  queue, reservation, `dataTurn` and `stopping`; the coordinator's phases; admission with byte
  credits; ticks, operational queries, shutdown, and the drop of the last handle without one; any
  enabled step may come next and every clock reading is arbitrary. `Owners` is one owner thread as a
  class that updates its shard, queues and reservation in place, tied method by method to `Machine`.
  `Discipline`, `Coordination`, `Consistency`, `Atomicity`, `Requests`, `History`, `Credits`,
  `Accounting` and `Admission` prove the invariant step by step; `Engine`, `Observable`, `Progress`,
  `Fairness`, `Delivery`, `Shutdown`, `Completion`, `Eventually` and `Budget` draw the conclusions over
  runs, finite and unending.

A failing assertion of the owner loop, a control channel found closed while reserved, a control
channel or coordinator found gone when a message has to be sent, an operation that cannot be split
and results that cannot be joined are steps into dead locations (`Panicked`, `Crashed`), which
`Engine.NeverFatal` shows unreachable. A completion that never arrives is not a step: that every
message is answered is what `Progress` and `Shutdown` show, and that every accepted request is in a
queue until it is answered is what `Requests` shows.

The transition functions of `Machine` follow the source line by line: `OwnerTurn`, `RunHead`,
`Handle`, `OwnerTick`, `OnClosed` and `DoExit` are `owner_loop` (crates/recall-server/src/engine.rs:308-391)
with `execute_local` (393-399); `Take`, `SendControl`, `Received`, `Sample`, `Join` and `Complete`
are `coordinator_loop` and `coordinate` (450-482, 496-562); `Begin`, `Acquire`, `Enqueue` and
`ReturnCredit` are `EngineHandle::execute` (228-285); `CrossStop` and `OwnerStop` are
`Engine::shutdown` (188-216), and the queries are `stats` (288-300). Their contracts are the lemmas
below.

Points worth knowing when reading:

- A capacity refusal depends on the physical tables, expired entries included, so the sequential
  table of `Sequential.Whole` is physical too and carries every owner's budget; refusals are then
  predicted exactly. `Sequential.WholeIsMeaning` says what this means for the live entries.
- A coordinated command takes its place in the history at its one clock sample, when every
  participant is reserved. Sweeps are recorded in the history as well, since they free capacity;
  `Observable.PlainLinearizable` leaves them out again and speaks of a plain map.
- Chunking changes which protocol error a bad stream reports, never whether there is one:
  `Framing.DecodeAllSplit` speaks of failure, not of messages.
- A request too long for its limits does not read back; `Roundtrip.RequestReadsBack` says exactly
  when it does, and `Replies.ReadReplyOfEncode` does the same for replies.

## Model

| member | source | states |
|---|---|---|
| Engine.Linearizable | crates/recall-server/src/engine.rs:308-562 | in every state of every run each reply in the history is the one the single sequential table gives at the command's place, that table is the replay of the history, and outside an installation the owners' tables are its parts |
| Engine.RealTimeOrder | crates/recall-server/src/engine.rs:228-285 | a command answered before another is invoked has its place before the other's |
| Engine.AnswersHavePlaces | crates/recall-server/src/engine.rs:228-285 | every answer is the reply of the command's place in the history, which lies between its invocation and its answer and carries the same operation |
| Engine.RunsAtMostOnce | crates/recall-server/src/engine.rs:228-285 | no command has two places in the history, and a refused or timed-out one has none |
| Engine.NoPartialWrite | crates/recall-server/src/engine.rs:505-559 | while a coordinated command is prepared and applied, each owner holds either its part from before the command or its part from after it, according to whether it has installed |
| Engine.NeverFatal | crates/recall-server/src/engine.rs:188-388 | over every run no assertion of the owner loop fails, its control channel is never found closed while reserved, and neither the coordinator nor shutdown meets an owner or a coordinator that is gone, an operation it cannot split or results it cannot join |
| Observable.PlainLinearizable | crates/recall-server/src/engine.rs:308-562 | in every run whose clock readings do not go back every reply is the one a plain map gives after the commands placed before it, sweeps left out, except that a command storing a value may be refused for lack of room, which leaves the map as it was |
| Observable.RemovedUntilWritten | crates/recall-core/src/store.rs:321-344 | in every run, under any clock readings, a key absent at some place of the history is in no settled owner's table until a command that writes it is placed after |
| Sequential.OnlyValuesRefused | crates/recall-core/src/store.rs:364-397 | within the budgets only commands that store a value are ever refused for lack of room, on the whole engine, since reads, removals and deadlines need none |
| Observable.TablesAlike | crates/recall-core/src/store.rs:321-362 | from the last clock reading on, the physical table of a history shows exactly the live entries of the plain map without the history's sweeps |
| Engine.StepInvariant | crates/recall-server/src/engine.rs:308-562 | every enabled step of any owner, client or the coordinator keeps the whole invariant: reservations, tables and votes, queues, history, lives and credits |
| Engine.RunInvariant | crates/recall-server/src/engine.rs:97-180 | the invariant holds in every state of every run from start-up |
| Engine.ReservedForActive | crates/recall-server/src/engine.rs:338-371 | every reserved owner is a participant of the command in flight, carries its id, has a current preparation if any, and is not stopping |
| Engine.FrozenWhileReserved | crates/recall-server/src/engine.rs:354-360 | the only step that changes a reserved owner's table or revision is its handling of the active command's apply message, in the apply phase |
| Discipline.HandleMessage | crates/recall-server/src/engine.rs:329-377 | handling the oldest control message never fails an assertion, leaves an owner the coordinator's phase allows, and completes nothing but what was awaited |
| Discipline.OldestMessage | crates/recall-server/src/engine.rs:496-562 | the oldest control message is a query, the one message the coordinator is waiting on, or the stop |
| Discipline.HandlePrepare | crates/recall-server/src/engine.rs:343-353 | an owner asked to prepare is reserved for that command and unprepared, and its vote and preparation are recorded at its current revision |
| Discipline.HandleApply | crates/recall-server/src/engine.rs:354-360 | an owner asked to apply holds a preparation made at the revision its shard still has |
| Discipline.OwnerStepDisciplined | crates/recall-server/src/engine.rs:308-391 | every step of an owner keeps the reservation discipline of all owners |
| Coordination.CoordinatorStepDisciplined | crates/recall-server/src/engine.rs:450-562 | every step of the coordinator and of shutdown keeps the reservation discipline |
| Coordination.SendDisciplined | crates/recall-server/src/engine.rs:595-601 | whenever the coordinator sends a control message the receiving owner is still running |
| Consistency.VoteCast | crates/recall-server/src/engine.rs:343-353 | a participant's vote is the vote on its part of the table at the clock sample, however long after the sample it is cast |
| Consistency.PreparedEffects | crates/recall-server/src/engine.rs:354-360 | what an owner has prepared, applied to its table, gives exactly its part of the whole command's result, within its budget |
| Consistency.OwnerStepConsistent | crates/recall-server/src/engine.rs:320-391 | local commands, sweeps and control messages keep every owner's table equal to its part of the sequential table, or to its part from before the pending command |
| Atomicity.LastVote | crates/recall-server/src/engine.rs:537-546 | with the last vote in favour the results can be joined, and the joined reply and its size check are those of the whole command |
| Atomicity.RefusedOutcome | crates/recall-server/src/engine.rs:530-536 | a single refusal is the whole command's answer, and the whole command changes nothing |
| Atomicity.ReceivedAlive | crates/recall-server/src/engine.rs:564-593 | the coordinator never meets participant results it cannot join |
| Atomicity.SampleConsistent | crates/recall-server/src/engine.rs:511-513 | taking the command's place at the clock sample leaves every owner either untouched by the command or pending with its earlier part |
| Sequential.LocalIsWhole | crates/recall-server/src/engine.rs:393-399 | running a local command on its owner gives the reply of running it on the whole table and changes only that owner's part, in the same way |
| Sequential.UnanimousVote | crates/recall-server/src/engine.rs:537-556 | when every participant votes yes the whole command fits every budget and answers the joined reply, or refuses exactly when the joined reply is too long |
| Sequential.RefusedVote | crates/recall-server/src/engine.rs:530-536 | when any participant refuses, the whole command on one table gives that same error and changes nothing |
| Sequential.ShareInstalls | crates/recall-server/src/engine.rs:547-555 | a participant's own effects are exactly what the whole command does to its part; an owner without a share is left alone |
| Sequential.WholeIsMeaning | crates/recall-core/src/store.rs:118-293 | on live entries the whole engine answers and does what a plain map would, apart from reply-size and capacity refusals, which change nothing |
| Requests.CrossDivisible | crates/recall-server/src/engine.rs:407-448 | only commands that can be split, with at least one key, ever reach the coordinator |
| Requests.QueuedRoutes | crates/recall-server/src/engine.rs:228-275 | every key of a command queued at an owner is routed to that owner |
| Requests.AnswerLocal | crates/recall-server/src/engine.rs:393-399 | answering the oldest local command removes exactly that request; every other accepted request stays in its one queue |
| Requests.EnqueueCross | crates/recall-server/src/engine.rs:261-275 | a command accepted by the coordinator's queue is in that queue once and in no other |
| History.RunHeadReplayed | crates/recall-server/src/engine.rs:393-399 | a local command's logged reply is the sequential table's at that moment |
| History.CompleteLives | crates/recall-server/src/engine.rs:462-479 | the coordinated command's answer is the reply fixed at its place in the history |
| Accounting.OwnerStepAccounted | crates/recall-server/src/engine.rs:308-399 | every owner step keeps queues, history, lives and credits in agreement |
| Accounting.CoordinatorStepAccounted | crates/recall-server/src/engine.rs:450-562 | every coordinator and shutdown step keeps queues, history, lives and credits in agreement |
| Admission.ClientStepAccounted | crates/recall-server/src/engine.rs:228-285 | arriving, getting credit, entering a queue, timing out, being refused and disconnecting keep queues, history, lives and credits in agreement |
| Engine.ByteCapacity | crates/recall-server/src/engine.rs:239-285 | in every reachable state free and held credit add up to the capacity of every target, and the payload bytes queued at an owner, and those queued for or held by the coordinator, are within it |
| Credits.OneHolder | crates/recall-server/src/engine.rs:254-262 | a step that gives or takes exactly what one client holds keeps free credit plus held credit equal to the capacity at every target |
| Credits.LeaveCredits | crates/recall-server/src/engine.rs:276-284 | timing out, being refused or disconnecting before acceptance gives back exactly the credit held |
| Credits.RunHeadCredits | crates/recall-server/src/engine.rs:393-399 | a local command's credit is free again once it has run, whether or not anyone is listening |
| Credits.CompleteCredits | crates/recall-server/src/engine.rs:462-479 | a coordinated command's credit is free again once it is answered |
| Credits.AllReturned | crates/recall-server/src/engine.rs:239-285 | once every client has its outcome all credit is free |
| Delivery.RunFollows | crates/recall-server/src/engine.rs:228-285 | along every run an outcome is final, and an accepted command stays accepted until it is answered, never refused or dropped |
| Delivery.RefusedNeverRuns | crates/recall-server/src/engine.rs:276-284 | a command turned away never has a place in the history, at any later moment |
| Delivery.ExitedIsDrained | crates/recall-server/src/engine.rs:372-388 | an owner leaves its loop only closed, empty and unreserved, after the coordinator has finished with its queue closed and empty |
| Delivery.DrainedAtEnd | crates/recall-server/src/engine.rs:188-216 | once every owner has stopped no accepted command is unanswered |
| Delivery.StoppingOwnerMoves | crates/recall-server/src/engine.rs:320-388 | a stopping owner that has not left always has a step of its own, which leaves it less to do |
| Fairness.StoppingNeverRises | crates/recall-server/src/engine.rs:331-335 | no step of anyone gives a stopping owner more to do |
| Shutdown.ShutdownCompletes | crates/recall-server/src/engine.rs:188-216 | from every moment of every run after shutdown has begun, or the last handle has been dropped, steps of owners, coordinator and shutdown alone lead to a state where all owners have stopped and no accepted command is unanswered |
| Shutdown.EndingStep | crates/recall-server/src/engine.rs:188-216 | in an ending engine no step of anyone, clients, queries and ticks included, adds to what is left to do, and every step that carries the shutdown on makes it strictly less |
| Shutdown.CarriesOn | crates/recall-server/src/engine.rs:188-216 | until every owner has stopped an ending engine has such a step enabled |
| Shutdown.OwnerToil | crates/recall-server/src/engine.rs:329-388 | an owner that has been told to stop, by message or by its channel closing, never gets more to do, and each of its own steps leaves it less |
| Shutdown.RunStopWaits | crates/recall-server/src/engine.rs:188-200 | the stop request is never lost: it waits for the coordinator until the queue is closed |
| Eventually.EventuallyAtRest | crates/recall-server/src/engine.rs:188-216 | in every unending run from a reachable ending state, under any schedule that keeps taking steps that carry the ending on until every owner has stopped, all owners stop and no accepted command is left unanswered |
| Eventually.EventuallyAnswered | crates/recall-server/src/engine.rs:496-562 | in every unending run, under any schedule that keeps taking steps that carry the command in flight forward, its client is answered, whatever runs between them |
| Completion.AcceptedCanBeAnswered | crates/recall-server/src/engine.rs:254-285 | from every reachable state every accepted command, in whichever queue and behind whatever else, can be brought to its answer by steps of owners, coordinator and shutdown alone |
| Progress.ForwardEnabled | crates/recall-server/src/engine.rs:496-562 | with a command in flight the coordinator or the owner it waits for always has an enabled step, whatever the data queues hold |
| Progress.Descends | crates/recall-server/src/engine.rs:496-562 | each such step makes the measure over rounds, message stage and queries ahead strictly smaller, on the success, refusal and oversized-reply paths |
| Progress.NeverRises | crates/recall-server/src/engine.rs:320-391 | no other step, local commands, ticks and queries included, changes the command in flight or makes the measure larger |
| Progress.Finishes | crates/recall-server/src/engine.rs:496-562 | from every reachable state the command in flight can be finished and answered by those steps alone |
| Fairness.LocalBypass | crates/recall-server/src/engine.rs:320-327 | a local request with p requests ahead is answered before more than p + 1 further reservations are released on its owner |
| Fairness.QueryBypass | crates/recall-server/src/engine.rs:368-371 | while no command holds the owner, such a request is answered before more than p + 1 operational queries are |
| Fairness.ControlBypass | crates/recall-server/src/engine.rs:320-329 | while control messages wait at a running owner, local commands run at most once more than messages are handled, so the oldest message is overtaken at most once |
| Fairness.LocalOrder | crates/recall-server/src/engine.rs:382-388 | an owner's queue is first in, first out: until it has run, a request stays behind exactly the requests that were ahead |
| Budget.ShardPayloadsAddUp | crates/recall-server/src/config.rs:111-118 | the owners' payload budgets add up to the configured total, remainder included |
| Budget.PayloadWithinTotal | crates/recall-server/src/config.rs:111-118 | in every state of every run the payload held by all owners together is within the configured total |
| Owners.OwnerThread.TakeTurn | crates/recall-server/src/engine.rs:320-327 | at the top of its loop the owner runs its oldest local command exactly when it is the data queue's turn and nothing reserves it, and ends as `Machine` says |
| Owners.OwnerThread.HandleControl | crates/recall-server/src/engine.rs:330-378 | handling a control message leaves shard, reservation and flags, and sends the completion, as `Machine` says, wherever no assertion of the branch fails |
| Owners.OwnerThread.ControlClosed | crates/recall-server/src/engine.rs:332-337 | an unreserved owner whose control senders are gone closes its queue and starts stopping |
| Owners.OwnerThread.Tick | crates/recall-server/src/engine.rs:379-382 | a tick sweeps within its budget and gives the data queue the next turn |
| Owners.OwnerThread.ReceiveData | crates/recall-server/src/engine.rs:383-388 | the data branch runs the oldest local command and answers its request |
| Owners.OwnerThread.ExecuteLocal | crates/recall-server/src/engine.rs:393-399 | a local command's reply is its result or its error, and its request leaves the queue with its credit |
| Sharding.Split | crates/recall-server/src/engine.rs:407-448 | splitting gives the participating owners' shares, as characterised by SharesCover |
| Sharding.SharesCover | crates/recall-server/src/engine.rs:407-448 | exactly the owners of some key get a share, in ascending order, each the command on its own keys in their order |
| Sharding.GroupKeys | crates/recall-server/src/engine.rs:421-427 | grouping collects for each owner its keys and their argument positions in order, and only owners of some key have a group |
| Sharding.GroupPairs | crates/recall-server/src/engine.rs:409-416 | grouping collects each owner's pairs in order, and only owners of some key have a group |
| Sharding.Combine | crates/recall-server/src/engine.rs:564-593 | joining computes the answer that AnswersJoin shows to be the whole command's |
| Sharding.AnswersJoin | crates/recall-server/src/engine.rs:564-593 | the joined answers of all participants are the answer of the whole command on the union table: values in argument order, duplicates counted by EXISTS, distinct live keys by DEL |
| Sharding.EffectsSplit | crates/recall-server/src/engine.rs:407-448 | a share's effects on its owner's part are the whole command's effects on that owner's keys, last assignment winning |
| Sharding.ShareAnswerIsShorter | crates/recall-core/src/store.rs:369-374 | a participant's answer never encodes longer than the whole command's, so a part is refused for size only when the whole is |
| Sharding.PositionsPointBack | crates/recall-server/src/engine.rs:421-427 | the recorded positions are exactly the places of the owner's keys among the arguments |
| Tables.DecideRefinesMeaning | crates/recall-core/src/store.rs:123-293 | every command's decision, with lazy expiry folded in, gives the reply and the live entries that the command means on a plain map of live entries |
| Tables.ExecuteIsMeaning | crates/recall-core/src/store.rs:118-293 | executing a command keeps the budgets and does and answers what it means on a plain map of the live entries; in error, with an answer too long, or for lack of room the shard is exactly as before, and only commands that store a value can lack room |
| Tables.AppliedStep | crates/recall-core/src/store.rs:295-319 | effects may be installed one key at a time in any order |
| Tables.RemovalKeepsBudget | crates/recall-core/src/store.rs:364-397 | effects that only remove never exceed a budget the table respects |
| Tables.LastWinsIsAssignAll | crates/recall-core/src/store.rs:225-236 | the effects of a multi-assignment are those of assigning the pairs one after another |
| Tables.CountIsPresent | crates/recall-core/src/store.rs:210-214 | EXISTS counts the argument positions whose key is live, repeats included |
| Shards.Shard.constructor | crates/recall-core/src/store.rs:85-104 | a new shard is valid and empty at revision zero |
| Shards.Shard.PrepareCommand | crates/recall-core/src/store.rs:123-293 | preparing computes the specified preparation and changes nothing |
| Shards.Shard.DecideDelete | crates/recall-core/src/store.rs:197-209 | the loop over keys removes each distinct key once and counts those that were live |
| Shards.Shard.DecideExists | crates/recall-core/src/store.rs:210-214 | the loop counts live keys with repeats and collects lapsed ones for removal |
| Shards.Shard.DecideMultiGet | crates/recall-core/src/store.rs:215-224 | the loop reads every argument in order and collects lapsed keys for removal |
| Shards.Shard.DecideMultiSet | crates/recall-core/src/store.rs:225-236 | the loop leaves the last value given for each key, without a deadline |
| Shards.Shard.Observe | crates/recall-core/src/store.rs:346-362 | looking a key up gives its live entry and schedules its removal if it has lapsed |
| Shards.Shard.Preflight | crates/recall-core/src/store.rs:364-397 | the incremental count and total equal those of the table after the effects; refusals come in the order reply size, then capacity |
| Shards.Shard.Apply | crates/recall-core/src/store.rs:295-319 | whatever order the effects are visited in, the table, timer index, payload total and revision end as committing the preparation, and no subtraction or lookup can fail |
| Shards.Shard.ExecuteCommand | crates/recall-core/src/store.rs:118-121 | the shard after a command, and its answer, are those of the specification, with the invariant kept |
| Shards.Shard.ExpireDue | crates/recall-core/src/store.rs:321-344 | one sweep removes at most the budget of due keys, earliest deadlines first, all of them if the budget is not reached, and counts them |
| Shards.Shard.Stats | crates/recall-core/src/store.rs:106-116 | the statistics are the table's size, its payload total and its number of deadlines, though none of them is recounted |
| Expiry.ExpiryIndex.Set | crates/recall-core/src/expiry.rs:28-39 | the index is the same key-to-deadline map with this key's deadline set, and stays a valid heap with exact positions |
| Expiry.ExpiryIndex.Remove | crates/recall-core/src/expiry.rs:41-51 | the index is the same map without the key, and stays a valid heap with exact positions |
| Expiry.ExpiryIndex.Expired | crates/recall-core/src/expiry.rs:53-58 | a key is returned exactly when some deadline is due, and its deadline is the earliest |
| Expiry.ExpiryIndex.Swap | crates/recall-core/src/expiry.rs:60-64 | swapping two nodes keeps positions the exact inverse of the heap |
| Expiry.ExpiryIndex.Up | crates/recall-core/src/expiry.rs:66-76 | moving an early node up repairs the heap and keeps the map |
| Expiry.ExpiryIndex.Down | crates/recall-core/src/expiry.rs:78-98 | moving a late node down repairs the heap and keeps the map |
| Expiry.RootIsEarliest | crates/recall-core/src/expiry.rs:53-58 | heap order puts the earliest deadline at the root |
| Expiration.SweepsAreInvisible | crates/recall-core/src/store.rs:321-344 | under a nondecreasing clock a run with sweeps anywhere between commands gives the same answers as the commands alone, as long as nothing is refused for capacity |
| Expiration.SameViewSameAnswer | crates/recall-core/src/store.rs:346-362 | shards with the same live entries answer alike and keep the same live entries, apart from capacity refusals |
| Expiration.RemovedStaysRemoved | crates/recall-core/src/store.rs:321-344 | a key that is gone stays gone through any commands, sweeps and clock readings until a command writes it |
| Counters.CounterIsExact | crates/recall-core/src/store.rs:165-196 | after any run of increments and decrements the stored value is the canonical form of the start plus the accepted amounts, and the deadline and all other entries are untouched |
| Counters.OneChange | crates/recall-core/src/store.rs:165-196 | a change is accepted exactly when the sum is representable, the minimum is not negated and the result fits; otherwise nothing changes |
| Decimal.IntegerIsCanonical | crates/recall-core/src/command.rs:351-361 | a byte string is accepted as n exactly when n is a signed 64-bit value and the string is its canonical decimal form |
| Decimal.DecimalDigits | crates/recall-protocol/src/lib.rs:273-280 | repeated division counts the digits of the decimal notation |
| Parser.ParseIsGrammar | crates/recall-core/src/command.rs:145-241 | a request is read as a data command exactly when its words write that command down, in any case and accepted form, and its keys and values are within their limits |
| Parser.SetAccepted | crates/recall-core/src/command.rs:243-289 | an assignment is accepted exactly when its options are at most one condition and at most one expiry, in any order and case, with a positive duration that fits |
| Parser.ParseSet | crates/recall-core/src/command.rs:243-289 | the left-to-right scan of the options computes the specified result, errors included |
| Framing.Decoder.Decode | crates/recall-protocol/src/lib.rs:82-148 | resuming on a buffer that has grown gives the outcome of parsing the whole buffer from its start, and takes exactly the request's bytes |
| Framing.Decoder.HeaderEnd | crates/recall-protocol/src/lib.rs:150-171 | resuming the scan finds the line the full scan finds, with total scan steps never more than the bytes scanned |
| Framing.Decoder.LengthHeader | crates/recall-protocol/src/lib.rs:173-188 | the checked accumulation of digits accepts exactly the specified length headers |
| Framing.Decoder.DecodePayload | crates/recall-protocol/src/lib.rs:113-146 | a payload is taken only when complete and terminated, spans stay ordered, disjoint and inside the input and the limits, and the last one yields the parsed request |
| Framing.Decoder.MoreInput | crates/recall-protocol/src/lib.rs:60-68 | the decoder's partial state stays valid when bytes are appended |
| Framing.DecodeChunks | crates/recall-protocol/src/lib.rs:82-148 | feeding any chunks to one decoder yields the requests, leftover bytes and failure of the whole stream decoded at once |
| Framing.DecodeAllSplit | crates/recall-protocol/src/lib.rs:82-148 | decoding a stream in two pieces, cut anywhere, gives the same requests in order, the same leftover, and fails exactly when decoding it at once fails |
| Framing.ParseFrameStable | crates/recall-protocol/src/lib.rs:82-148 | a decided frame is not changed by bytes that arrive later |
| Framing.IncompleteIsShort | crates/recall-server/src/lib.rs:207-221 | while a request is incomplete the buffer is shorter than the frame limit, so the reader can take another byte |
| Roundtrip.RequestReadsBack | crates/recall-protocol/src/lib.rs:82-148 | a nonempty argument list encoded as an array of bulk strings, followed by anything, decodes to those arguments and its exact length when it is within the limits, and is refused otherwise |
| Roundtrip.PipelineReadsBack | crates/recall-protocol/src/lib.rs:82-148 | any list of encoded requests sent back to back decodes to the same list, followed by whatever comes after it; the first that exceeds a limit closes the stream after the requests before it |
| Roundtrip.StreamReadsBack | crates/recall-protocol/src/lib.rs:82-148 | whatever bytes follow, the stream decodes to the first request and then to what follows, or closes if that request exceeds a limit |
| Replies.ReadReplyOfEncode | crates/recall-server/tests/support/mod.rs:84-144 | reading an encoded reply followed by anything returns the reply and the rest exactly when the reply is within the reader's limits and its lines hold no carriage return |
| Replies.ReadManyOfEncode | crates/recall-server/tests/support/mod.rs:84-144 | a pipeline of encoded replies splits back into the same list |
| Replies.EncodeTo | crates/recall-protocol/src/lib.rs:237-270 | encoding appends exactly the reply's bytes to the buffer |
| Replies.EncodedLenIsExact | crates/recall-protocol/src/lib.rs:218-235 | the predicted length is the number of bytes written, or none when that does not fit the machine's size type |

## Left out

- Sockets, read and write deadlines, the accept loop, connection permits and metrics: input and output around the core; only the reader's need for one more byte is used.
- Tokio, threads, `catch_unwind` and `abort`: channels are first-in first-out sequences, completions are delivered at most once, and aborting is a dead location shown unreachable.
- `coordinate` and `coordinator_loop` are transition functions rather than a method with loops over parts, because other steps come between any two of theirs; for the same reason `owner_loop` is the methods of `Owners.OwnerThread` taken one at a time, in the order `Machine` enables them, rather than one loop.
- The control channel's buffer of eight and the senders blocked on it are one sequence served in arrival order; a cancelled query may leave it only from the blocked part.
- Acquiring credit is one atomic step in any order among waiting clients; the semaphore's own queueing order is not modelled.
- Time: the admission timeout and the tick may happen at any moment, and every clock reading is an arbitrary signed 64-bit value; a nondecreasing clock is assumed only where a lemma says so.
- `RandomState` hashing is any fixed function from keys to owners.
- Exhaustion of the 64-bit revision and command-id counters, which stops the process, is assumed away.
- Allocation always succeeds: `try_reserve` failures are not modelled, and byte strings are immutable sequences.
- Sessions, authentication, HELLO, CLIENT, INFO, COMMAND, PING, ECHO, SELECT and QUIT: shallow branches and text; `Parser` reads data commands and answers `NotData` for every other name.
- Settings other than the owners' limits, and the command-line and service files: they would only add easy members.
- Statistics counters other than applied commands and expired keys.
- Engine.Linearizable: the history is the order of events the model records; that a client's invocation and answer events are observed in that order is part of the model, not of the network.
- Progress.Finishes: a finishing continuation that exists; Eventually.EventuallyAnswered speaks of every schedule that keeps taking the steps, which is an assumption about threads.
- Shutdown.ShutdownCompletes: a continuation that exists, with one clock value throughout; Eventually.EventuallyAtRest speaks of every schedule that keeps taking the steps.
- Completion.AcceptedCanBeAnswered: likewise a continuation; how many others may go first under an arbitrary schedule is what Fairness.LocalBypass bounds.
- Observable.RemovedUntilWritten: an owner between the place of a coordinated removal and its installation still holds the key, so such an owner is not settled.
- Observable.PlainLinearizable: stated for clock readings that do not go back, since an entry that has lapsed and been removed does not return when the clock does.
- Expiration.SweepsAreInvisible: stated for runs in which nothing is refused for capacity, since sweeping frees capacity that expired entries would otherwise hold.
