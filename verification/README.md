# The hard cores of the Eyot control plane, modelled and proved

Eyot runs agents ("instances") for workspaces. Its backend keeps the workspace graph, delivers
messages and control to agent pods, guards their loops with circuit breakers, and keeps derived
data such as capability hashes in step with the tables they come from. An instance host runs the
agents and streams their output back. This project models the parts of the backend and the host
that carry state, graphs, interleavings or parsing, and proves what they promise: over every run,
every input or every interleaving.

Run `dafny verify dfyconfig.toml` (Dafny 4.11) to verify the whole project.

| file | what it models |
|---|---|
| Graphs, Topology, Clone | the forest of passages between seats: the acyclicity check, the routes that change passages, cleanup, cloning |
| TaskQueue | the timed task queue with one worker, a heap and a wakeup flag |
| Text, SlashParser, SlashPrinter, SlashCommand, SlashText | the slash protocol, a printer for it, and the round trips of directives, command lines and mixed text |
| Framing, ChatBridge, TurnText, Composer | the streaming chat path: newline framing, the bridge's turn machine, what a turn says told from its inputs, the backend's turns, end to end |
| InjectQueue, PollOverlap, AckOverlap, SafePoint, PodLoop, PodDelivery | delivery of injects: the table, polls and acknowledgements that overlap, the safe-point guard, an agent pod at work on all, and what reaches it |
| Harness, CheckpointOverlap | loop metrics, four breakers, an event dispatcher that calls back into the supervisor, and checkpoints that overlap |
| WorkerPool, OutputCap | the subagent pool's bounded concurrency and its output cap |
| MigrationHash, Capabilities, SilentEdits | the effective capability surface, its stored hash, and the routes that do and do not recompute it |
| Slugs, Cerebellum, CerebellumRows | the migration of legacy cerebellum agents |
| Overlay, Pagination, Knowledge | recursive configuration merge, cursor pagination, knowledge overrides |
| Prelude | the option type |

How to read the model. Tables are sequences of rows that are only added to and marked, so a row's
place is its identity; where the source breaks ties by a random identifier, the row has one.
A method that changes state is proved equal to a function of the old state, and the theorems are
about that function; beside it stand laws told from the inputs or by rows, without that function. A run is any list of steps, and every theorem about runs holds for all of
them. What one coroutine does between two waits is one step: so it is for the queue's workers, the
pod's two tasks, the pool, the bridge and the turns. A request to the database is one step too,
but where two requests can come between each other's queries to effect, it is split: creating a
passage at its insert, polling and acknowledging injects at their commits, a checkpoint at its
database waits. Which requests are still taken one at a
time is said under "Left out". Clocks, generated identifiers, JSON, SHA-256, child processes and
the network are parameters: a time or an outcome that a step is given, or a function that the
theorem holds for whatever it is.

What the proofs found. In these places the code does not do what a reader would expect or what
its own text says; the model follows the code.

- Creating a passage for a pair that has a deleted row revives the row without the acyclicity
  check, setting a passage active again asks for no check either, and two creations that overlap
  can each pass the check: each way a run can close a cycle. `Topology.RunForest` gives the exact
  condition.
- A start while a stop has still to return leads to two workers, and then tasks can start out of
  order: `TaskQueue.StartExactly` says that this is so from every such state, and from no other.
- Two polls of one instance that overlap return the same rows (`PollOverlap.SelectExactly`), and
  two acknowledgements of one row that overlap both report it applied (`AckOverlap.ReadExactly`).
- A delivered inject whose response is lost or carries a kill is never returned again
  (`PodDelivery.LostForGood`).
- The documentation of the slash protocol lists `blackboard` as an accepted scope; its pattern
  does not know it, and such a reference stays an argument (`SlashPrinter.ReferenceExactly`).
- The tunnel hub rebuilds the done frame without its text, so the backend's reply is what was
  streamed, not what the bridge ended with (`Composer.ReplyDelivered`).
- A second chat request silences the turn that is active (`ChatBridge.TurnEndsExactly`), and
  an interrupt leaves it without an end (`ChatBridge.InterruptedTurnNeverEnds`).
- Two checkpoints of one instance can both trip on the same metrics, when the second arrives
  before the first has dropped them (`CheckpointOverlap.ArriveExactly`).
- A comment in the supervisor says that a failed commit keeps the registry entry; the stop event
  has already dropped it (`Harness.FaultyTrip`).
- The idle breaker measures only the time between a checkpoint's own stamp and its evaluation:
  silence never trips it (`Harness.SilenceNeverTrips`).
- Failing an inject has no status guard, while the lifecycle in the row's own documentation knows
  failing only from pending; nothing else leaves that lifecycle (`InjectQueue.RunDocumented`).
- Deleting a gene, a market entry or a base class and editing an entity or a market entry
  recompute no hash; `Capabilities.DeletionExact` and `SilentEdits.RunExactly` say when the stored
  ones are wrong afterwards.
- A truncated subagent output can end in half a surrogate pair, and its report of omitted bytes
  is then not the size of the omitted text (`OutputCap.SplitExactly`).
- Cursor pagination skips rows when a page ends between two equal cursor values.
- Adding a knowledge row that loses leaves the set of winners unchanged, but it can change their
  order in the result, which follows the newest row of each key (`Knowledge.LoserMovesNothing`).

## Model

| member | source | states |
|---|---|---|
| Topology.PassageStore.CheckAcyclic | eyot-backend/app/core/topology.py:16-54 | The search ends and answers true exactly when the two seats differ and no chain of live passages of the workspace joins them. |
| Topology.PassageStore.VisitNeighbors | eyot-backend/app/core/topology.py:35-52 | Looking at one seat either meets the other end point next to it, or leaves every neighbour visited and every new one queued. |
| Topology.PassageStore.SoftDeletePassagesTouching | eyot-backend/app/core/topology_cleanup.py:18-40 | Exactly the undeleted rows at the given seats are marked, and their number is returned; no seats, no change. |
| Topology.CleanupKeepsForests | eyot-backend/app/core/topology_cleanup.py:26-40 | After cleanup no undeleted passage touches the seats, every other row is as it was, and forests stay forests. |
| Topology.PassageStore.CheckPassage | eyot-backend/app/api/v1/messaging.py:318-391 | A creation up to its insert: a missing seat comes first, then a row for the pair in any state, then the cycle, and it may insert exactly when none of these is so; by rows, one deleted row of the pair comes back, or the creation is held with its seats locked, or nothing changes. |
| Topology.PassageStore.InsertPassage | eyot-backend/app/api/v1/messaging.py:393-412 | The insert adds one live row in canonical order and nothing else, or answers duplicate when the unique index has no room. |
| Topology.PassageStore.UpdatePassage | eyot-backend/app/api/v1/messaging.py:415-441 | A patch sets state and metadata of one undeleted row without the acyclicity check, and no other row; the unique index alone can refuse it. |
| Topology.PassageStore.DeletePassage | eyot-backend/app/api/v1/messaging.py:444-465 | One undeleted row is marked deleted and stays active; every other row is as it was. |
| Topology.PassageStore.DeleteMembership | eyot-backend/app/api/v1/messaging.py:207-267 | Exactly when all the seats are there they go; by rows, no undeleted passage then touches one of them, the touched ones are marked, and every other row is as it was. |
| Topology.PassageStore.NeighborMembershipIds | eyot-backend/app/core/passages.py:52-80 | The result lists exactly the seats next to the given one by a live passage, each once. |
| Topology.GuardIsExact | eyot-backend/app/core/topology.py:22-54 | From forests, a new live row keeps forests exactly when the check says so; a refusal means the row would have closed a cycle. |
| Topology.StepForest | eyot-backend/app/api/v1/messaging.py:207-465 | From forests, one operation leaves forests exactly when it makes no passage live between seats that are connected at that moment. |
| Topology.RunForest | eyot-backend/app/api/v1/messaging.py:207-465 | Over every run of creations split at their insert and overlapping in any way, revivals, patches, deletions and seats that come and go: all workspaces stay forests exactly when no insert, revival or reactivation joins seats connected at that moment. |
| Topology.RunForestOneAtATime | eyot-backend/app/api/v1/messaging.py:385-402 | When no request comes between a check and its insert, the check is enough for inserts: forests stay forests exactly when no revival or reactivation joins connected seats. |
| Topology.RunGuarded | eyot-backend/app/api/v1/messaging.py:330-404 | Over every run the row locks keep the seats of a checked creation in place and its pair unused, so its insert never answers duplicate. |
| Topology.RunSeated | eyot-backend/app/api/v1/messaging.py:207-465 | Over every run, with seats deleted at any time, both ends of every undeleted passage are seats that are there, if they were at the start. |
| Topology.RevivalCanCloseACycle | eyot-backend/app/api/v1/messaging.py:368-383 | Join 1-2, delete that passage, join 1-3 and 2-3, join 1-2 again: the revived row closes a cycle. |
| Topology.ReactivationCanCloseACycle | eyot-backend/app/api/v1/messaging.py:415-441 | Join 1-2, set it inactive, join 1-3 and 2-3, set it active again: a cycle. |
| Topology.OverlapCanCloseACycle | eyot-backend/app/api/v1/messaging.py:330-402 | With 1-2 and 3-4 joined, overlapping creations of 1-3 and 2-4 lock different seats, both pass the check and both insert: a cycle. |
| Clone.WorkspaceStore.CopySeats | eyot-backend/app/services/clone.py:309-317 | Each undeleted user seat gets one copy with its own identifier, user and position, and the map from old to new. |
| Clone.WorkspaceStore.CopyPassages | eyot-backend/app/services/clone.py:319-332 | Each undeleted passage of the source is copied between the copied seats, or reported dropped when it loses an end point. |
| Clone.WorkspaceStore.CloneWorkspace | eyot-backend/app/services/clone.py:288-335 | A missing or deleted workspace and a slug taken in its namespace give their errors and change nothing; otherwise the new workspace row has the namespace of the source and the slug asked for, and seats, passages and events are there. |
| Clone.CloneConserves | eyot-backend/app/services/clone.py:319-332 | Copied passages plus dropped events are the undeleted passages of the source, disjointly; each copy keeps its state and stores its end points in order. |
| Clone.CloneIsomorphic | eyot-backend/app/services/clone.py:312-327 | Two copied seats are live neighbours exactly when their originals are. |
| Clone.CloneForest | eyot-backend/app/services/clone.py:319-327 | The copy is a forest exactly when the part of the source graph on the copied seats is one. |
| Clone.CloneKeepsForests | eyot-backend/app/services/clone.py:319-327 | If every workspace is a forest before the clone, every workspace is one after it. |
| Clone.SeatMapClones | eyot-backend/app/services/clone.py:309-317 | Exactly the undeleted user seats are copied, different seats to different copies. |
| Clone.SeatsCopied | eyot-backend/app/services/clone.py:309-317 | Each undeleted user seat, and nothing else, gets a row under the identifier of the seat map, with the same user and position. |
| Clone.DropsExactly | eyot-backend/app/services/clone.py:319-332 | One drop event for each undeleted passage of the source with an end that is not copied, no other, and none twice. |
| TaskQueue.InMemoryTaskQueue.RegisterTask | eyot-backend/app/core/queue.py:93-97 | A second registration of a name is refused and changes nothing. |
| TaskQueue.InMemoryTaskQueue.EnqueueTask | eyot-backend/app/core/queue.py:80-91 | An unknown name is refused; otherwise exactly one entry is recorded, with that name and payload, due the whole delay after the present time, and every waiting worker is woken. |
| TaskQueue.InMemoryTaskQueue.StartWorker | eyot-backend/app/core/queue.py:99-105 | Creates a worker and clears the stop mark only when none is known. |
| TaskQueue.InMemoryTaskQueue.BeginStop | eyot-backend/app/core/queue.py:107-112 | Sets the stop mark, wakes every waiting worker, and waits for the worker known at that moment. |
| TaskQueue.InMemoryTaskQueue.FinishStop | eyot-backend/app/core/queue.py:111-114 | Forgets the worker once the awaited one has ended. |
| TaskQueue.InMemoryTaskQueue.WorkerPiece | eyot-backend/app/core/queue.py:122-140 | The piece of the worker from the loop head to its next suspension: exit, wait, start a due task, or hold the head. |
| TaskQueue.InMemoryTaskQueue.Execute | eyot-backend/app/core/queue.py:155-169 | A started task is logged with the time of its start. |
| TaskQueue.InMemoryTaskQueue.Resume | eyot-backend/app/core/queue.py:141-153 | A timer that wins starts the held task; a worker that was woken puts it back first, even if another has cleared the flag since. |
| TaskQueue.RunConserves | eyot-backend/app/core/queue.py:80-153 | Over every run, overlapping stops included: the enqueued tasks are the queued, held and started ones, each in one place; none starts twice or before it is due. |
| TaskQueue.EntriesAreWishes | eyot-backend/app/core/queue.py:80-91 | Over every run the entries are exactly what was asked for, told from the actions alone: each enqueue with a registered name, in order, with its payload and the deadline asked for. |
| TaskQueue.NeverEarly | eyot-backend/app/core/queue.py:80-153 | However the run goes on after an enqueue, for every delay, its one entry keeps name, payload and deadline, no execution of it is logged before the deadline, and when its timer wins it starts then, with its payload. |
| TaskQueue.StartsOnTime | eyot-backend/app/core/queue.py:80-153 | An idle worker with nothing else queued starts a task exactly at the deadline asked for, or at once when that is not ahead. |
| TaskQueue.AllServed | eyot-backend/app/core/queue.py:120-153 | With its one worker alive and not told to stop, the queue left to itself can start every task that was ever enqueued. |
| TaskQueue.FairOrder | eyot-backend/app/core/queue.py:120-153 | Over every interleaving with no start during a stop: an older task whose deadline is no later always starts first, and a worker asleep and not woken is not stopping and holds the least pending task. |
| TaskQueue.StepInv | eyot-backend/app/core/queue.py:120-153 | Every action keeps the one-worker invariant from which order and wakeups follow. |
| TaskQueue.DueTaskNotStuck | eyot-backend/app/core/queue.py:122-153 | While a task is due and not started, the worker has an enabled step. |
| TaskQueue.StopDrains | eyot-backend/app/core/queue.py:107-114 | After stop a sleeping worker exits at its next step with its held task back in the heap; a running handler is finished first. |
| TaskQueue.StopHolds | eyot-backend/app/core/queue.py:107-153 | After a stop, and until a worker is started again, nothing is started over any run but what a worker held at that moment. |
| TaskQueue.StartDuringStopLosesWorker | eyot-backend/app/core/queue.py:99-114 | A start while a stop has still to return makes that stop forget the new, living worker. |
| TaskQueue.StartExactly | eyot-backend/app/core/queue.py:99-153 | From every state of the one-worker invariant, a start that makes a worker leaves every later run fair, in which no start comes during a stop, exactly when it does not itself come during a stop. |
| TaskQueue.StartDuringStopBreaksOrder | eyot-backend/app/core/queue.py:99-153 | After any start during a stop, whatever is queued, there is a run with no further such start in which a younger task with the same deadline starts first. |
| TaskQueue.StopsOverlap | eyot-backend/app/core/queue.py:107-114 | Two overlapping stops: once the first has returned no worker is known and the second has still to return. |
| SlashParser.ExpandInlineChatMentions | eyot-backend/app/core/slash_parser.py:79-113 | A line without command and with several mentions becomes one directive for each, up to the next mention. |
| SlashParser.ParseCommand | eyot-backend/app/core/slash_parser.py:150-177 | The last content reference wins, all references leave the text, and the rest is split into arguments. |
| SlashParser.ParseDirective | eyot-backend/app/core/slash_parser.py:116-177 | Target, command, reference and arguments of one line; a bare target is a chat mention; anything else is no directive. |
| SlashParser.ParseLine | eyot-backend/app/core/slash_parser.py:198-210 | What one line adds to the turn; which, `SlashText.LineExactly` says of every line. |
| SlashParser.ParseTurn | eyot-backend/app/core/slash_parser.py:180-213 | The loop over lines computes the turn that `SlashText.MixedRoundTrip` and `SlashText.TurnIsLines` say the meaning of. |
| SlashPrinter.RoundTrip | eyot-backend/app/core/slash_parser.py:180-213 | Any list of well-formed directives, printed one per line and parsed, comes back in order with nothing left over; legacy scopes come back canonical. |
| SlashPrinter.InlineRoundTrip | eyot-backend/app/core/slash_parser.py:79-113 | Two or more chat mentions printed on one line parse to one directive for each. |
| SlashText.LineExactly | eyot-backend/app/core/slash_parser.py:198-210 | Every line, stripped, is general text exactly when it holds no command token, does not start with a target and has one mention at most; a blank line is nothing, and any other line gives directives and no text. |
| SlashText.TurnIsLines | eyot-backend/app/core/slash_parser.py:193-213 | White space around the message and around its lines changes nothing: a turn is what its lines add up to, with the plain lines joined by newlines as text, and none when there is none. |
| SlashText.MixedRoundTrip | eyot-backend/app/core/slash_parser.py:180-213 | Any list of printed directives, typed commands, lines of several mentions, plain lines and blank lines, with any white space around them: parsed, the meanings come in order, and the general text is the plain lines joined by newlines, None exactly when there is none. |
| SlashCommand.CommandLineParsed | eyot-backend/app/core/slash_parser.py:129-177 | Words and references in any number and order on both sides of the command, with any white space between them: the arguments are the words, in order, and the reference is the last one on the line; memory is of an instance, every other scope of the hub. |
| SlashPrinter.CommandParsed | eyot-backend/app/core/slash_parser.py:129-177 | A printed command line with any target, arguments and reference is read back exactly. |
| SlashPrinter.ScopesCanonical | eyot-backend/app/core/slash_parser.py:45-68 | Whatever the text, a parsed reference is to the hub or to an instance. |
| SlashPrinter.ReferenceExactly | eyot-backend/app/core/slash_parser.py:15-65 | For any target, command, arguments and path, a command printed with a reference to a documented scope reads back with the reference exactly when the pattern knows the scope; `blackboard`, which it does not, stays the last argument. |
| Framing.PiRpc.OnData | eyot-instance-host/src/pi-rpc.ts:53-56 | A chunk leaves the unterminated end in the buffer and emits what the completed lines say. |
| Framing.PiRpc.Drain | eyot-instance-host/src/pi-rpc.ts:72-87 | The loop empties the buffer of complete lines, in order. |
| Framing.PiRpc.Emit | eyot-instance-host/src/pi-rpc.ts:76-85 | One trailing carriage return is dropped; blank lines and lines that are not JSON emit nothing. |
| Framing.AgentOutput.ProcessLine | eyot-instance-host/subagents/extension/index.ts:342-349 | Blank lines and lines that are not JSON emit nothing. |
| Framing.AgentOutput.OnData | eyot-instance-host/subagents/extension/index.ts:379-384 | Splitting and popping the last piece does the same as draining. |
| Framing.AgentOutput.OnClose | eyot-instance-host/subagents/extension/index.ts:390-393 | The unterminated rest is processed when the child ends. |
| Framing.SplitContinues | eyot-instance-host/src/pi-rpc.ts:72-87 | Splitting can stop anywhere and go on from the unterminated piece. |
| Framing.AnyChunking | eyot-instance-host/src/pi-rpc.ts:53-87 | However the stream is cut, the events are those of the complete lines of the whole text and the buffer is its unterminated end. |
| Framing.EndHeard | eyot-instance-host/subagents/extension/index.ts:379-393 | With its end, a subagent's output has been heard as the whole text split at newlines. |
| Framing.FramedRoundTrip | eyot-instance-host/src/pi-rpc.ts:53-87 | Events written one per line, with or without carriage returns, come back the same through any chunks. |
| ChatBridge.ChatBridge.OnChatRequest | eyot-instance-host/src/chat-bridge.ts:91-120 | A request without an id does nothing; one that cannot start the runtime, or write the prompt, is answered with exactly that error frame; an accepted one makes its turn the active one, with nothing said. |
| ChatBridge.ChatBridge.OnPiEvent | eyot-instance-host/src/chat-bridge.ts:122-296 | New state and frames for every kind of event; which they are over a turn, `TurnText.TurnExactly` tells from the events alone. |
| ChatBridge.ChatBridge.OnMessageUpdate | eyot-instance-host/src/chat-bridge.ts:141-200 | Text, thinking, tool and full-text updates of a message, in the terms of the same function. |
| ChatBridge.ChatBridge.Snapshot | eyot-instance-host/src/chat-bridge.ts:176-224 | A full text longer than the reply replaces it; only what is beyond the present length is sent. |
| ChatBridge.ChatBridge.OnAgentEnd | eyot-instance-host/src/chat-bridge.ts:253-288 | The final text is used only if none was streamed; the done frame carries the reply. |
| ChatBridge.ChatBridge.FailActive | eyot-instance-host/src/chat-bridge.ts:319-323 | A runtime failure ends the active turn with an error. |
| ChatBridge.ExtractAssistantText | eyot-instance-host/src/chat-bridge.ts:24-56 | The loop over messages finds the last assistant text. |
| ChatBridge.FullTextIs | eyot-instance-host/src/chat-bridge.ts:24-56 | The full text of an event is the first of three fields that is not empty, then the message if it has text, then the last assistant message that has one. |
| ChatBridge.PartsJoined | eyot-instance-host/src/chat-bridge.ts:38-42 | The parts of a message are joined in order, those without text as nothing. |
| TurnText.TurnExactly | eyot-instance-host/src/chat-bridge.ts:122-344 | From the start of a turn, over every run of its inputs and told from them alone: every frame it sends, and the text it holds - the last accepted full text followed by every later delta, up to the end. |
| TurnText.ReplyIsSaid | eyot-instance-host/src/chat-bridge.ts:113-296 | The reply of a turn is the text its inputs say, and there is none exactly when an input reports a failure before any ends the turn. |
| ChatBridge.TurnRun | eyot-instance-host/src/chat-bridge.ts:113-296 | Every run of one turn sends chunks and activity of that turn and then at most one done or error, and the text sent is always as long as the reply. |
| ChatBridge.StreamEqualsReply | eyot-instance-host/src/chat-bridge.ts:145-215 | The chunks add up to the reply exactly when the last full text that was accepted extends what had been streamed. |
| ChatBridge.FaithfulStream | eyot-instance-host/src/chat-bridge.ts:176-215 | If every accepted full text extends the reply it replaces, the chunks always add up to the reply. |
| ChatBridge.EveryRunEndsLast | eyot-instance-host/src/chat-bridge.ts:91-323 | Over every run of requests with fresh ids, events and failures, nothing of a turn follows its end. |
| ChatBridge.TurnEndsExactly | eyot-instance-host/src/chat-bridge.ts:91-323 | A turn gets its end exactly when the agent ends or something fails before another request takes the bridge over. |
| ChatBridge.SupersededTurnNeverEnds | eyot-instance-host/src/chat-bridge.ts:113-120 | A request that comes while a turn is active leaves that turn without any end, and without any frame at all. |
| ChatBridge.ChatBridge.OnInterrupt | eyot-instance-host/src/chat-bridge.ts:81-88 | An interrupt kills the runtime and leaves the turn active, with no frame. |
| ChatBridge.InterruptedTurnNeverEnds | eyot-instance-host/src/chat-bridge.ts:68-88 | A turn whose runtime is interrupted before any end never gets one, as the exit of the runtime is not listened to; it stays active until a request overtakes it. |
| Composer.ComposerTurn.EmitFrame | eyot-backend/app/core/composer_turns.py:68-70 | A frame is kept for replay and queued. |
| Composer.ComposerTurn.Ingest | eyot-backend/app/core/composer_turns.py:73-130 | New turn state for chunk, done, error, activity and other frames. |
| Composer.ComposerTurn.Finalize | eyot-backend/app/core/composer_turns.py:320-346 | The transcript gets the content, or the reply when the content is blank. |
| Composer.ComposerTurn.RunStreamTurn | eyot-backend/app/core/composer_turns.py:243-317 | The loop over token chunks computes the stream function, for an end, a finish reason and a failure. |
| Composer.IngestTunnelChatFrame | eyot-backend/app/core/composer_turns.py:73-78 | A frame changes its own turn only; one for an unknown turn changes nothing. |
| Composer.StreamIsIngest | eyot-backend/app/core/composer_turns.py:73-130 | The backend's own stream leaves exactly the state that ingesting its frames leaves, but for a failure without message after a blank, non-empty reply. |
| Composer.StreamedExactly | eyot-backend/app/core/composer_turns.py:243-346 | What the backend's own stream leaves, told from its chunks alone: one frame for each token that is not empty up to the first finish reason, one for the end, their text as reply, the transcript set and the stream closed. |
| Composer.FramesKept | eyot-backend/app/core/composer_turns.py:73-130 | Whatever is sent, the backend keeps exactly one frame for each message, in order, with its own turn and instance, the target of the turn unless the message names one, and the message's content. |
| Composer.TurnDelivered | eyot-backend/app/services/tunnel/tunnel_hub.py:118-166 | Over every run of a turn the backend has the bridge's status, one replayable frame for each message, the stream closed once, exactly when the turn ends, and the transcript set to the reply or to the failure. |
| Composer.ReplyDelivered | eyot-backend/app/core/composer_turns.py:97-110 | After done the backend holds the bridge's reply exactly when its text arrives and is not blank, or the chunks add up to it. |
| Composer.EndToEnd | eyot-backend/app/services/tunnel/tunnel_hub.py:118-144 | However the runtime's output is cut into chunks, the backend keeps exactly the frames that the events tell by themselves, their text is its reply, its status is that of the turn, and unless the turn failed its reply is the text that was said exactly when the turn is in sync. |
| Composer.HubKeepsWrongReply | eyot-backend/app/services/tunnel/tunnel_hub.py:132-143 | Three events after which the hub, which drops the text of the done frame, leaves a reply the runtime never gave. |
| InjectQueue.InjectService.EnqueueInject | eyot-backend/app/core/inject_queue.py:59-130 | One pending row with the fields asked for and its expiry is added with its events, or it is refused by the summary rules, which change nothing. |
| InjectQueue.InjectService.PollPendingInjects | eyot-backend/app/core/inject_queue.py:133-170 | For a poll that nothing comes between, by rows: those it returns were ready, are no more than the limit and none twice, and become delivered; the overdue rows of its instance expire; every other row stays. |
| InjectQueue.InjectService.AckInjects | eyot-backend/app/core/inject_queue.py:173-205 | By rows, exactly the delivered rows that it names and that are not deleted are acknowledged, with an applied event unless they are notifications; the count is the number of rows changed. |
| InjectQueue.InjectService.MarkInjectFailed | eyot-backend/app/core/inject_queue.py:208-231 | Any undeleted row, whatever its status, becomes failed with the message, and one failure event is added; otherwise nothing changes. |
| InjectQueue.InjectService.DoSweepExpired | eyot-backend/app/core/inject_queue.py:234-247 | By rows, exactly the overdue pending ones expire, and their number is returned. |
| InjectQueue.InjectService.DoSweepOldCompleted | eyot-backend/app/core/inject_queue.py:250-264 | By rows, exactly the old completed ones are marked deleted, never removed, and their number is returned. |
| InjectQueue.PollTakesReady | eyot-backend/app/core/inject_queue.py:155-169 | A poll returns ready rows only, in the order of creation time and identifier, at most the limit. |
| InjectQueue.PollTakesOldest | eyot-backend/app/core/inject_queue.py:155-169 | A ready row is left behind only by a full poll, none of whose rows comes after it. |
| InjectQueue.RunValid | eyot-backend/app/core/inject_queue.py:133-264 | Over every run of whole operations each row is returned by at most one poll; a soft inject or wake has one applied event if acknowledged and none otherwise, a notification none; deletion marks only completed rows. |
| AckOverlap.ReadExactly | eyot-backend/app/core/inject_queue.py:173-205 | With acknowledgements split at their commit and anything in between: one keeps every row from getting two applied events, however things go on, exactly when it finds no row, but for notifications, that an open one has found. |
| AckOverlap.RunOnce | eyot-backend/app/core/inject_queue.py:173-205 | Over every run in which no acknowledgement finds such a row of an open one, each row has at most one applied event. |
| AckOverlap.ValidInv | eyot-backend/app/core/inject_queue.py:173-205 | Every queue that whole operations lead to is one these runs can start from. |
| AckOverlap.EventsAreCommits | eyot-backend/app/core/inject_queue.py:173-205 | Over every run, overlapping or not, a row has one applied event for each commit of an acknowledgement that had found it delivered. |
| AckOverlap.SecondReadApart | eyot-backend/app/core/inject_queue.py:177-187 | Two acknowledgements that read one after the other are harmless exactly when no delivered row that both ask for gets an applied event. |
| AckOverlap.AloneIsAck | eyot-backend/app/core/inject_queue.py:173-205 | Read and commit with nothing in between are the whole acknowledgement. |
| PollOverlap.SelectExactly | eyot-backend/app/core/inject_queue.py:155-170 | With polls split at their commit and anything in between: a select keeps every row from being returned twice, however things go on, exactly when it takes no row of a poll still open. |
| PollOverlap.RunOnce | eyot-backend/app/core/inject_queue.py:155-170 | Over every run in which no select takes a row of an open poll, each row is returned by at most one poll. |
| PollOverlap.SecondPollShares | eyot-backend/app/core/inject_queue.py:155-170 | A poll that selects right after another of the same instance takes its first row again: nothing locks the rows. |
| PollOverlap.AloneIsPoll | eyot-backend/app/core/inject_queue.py:133-170 | Select and commit with nothing in between are the whole poll. |
| InjectQueue.StepEvolves | eyot-backend/app/core/inject_queue.py:133-264 | Every operation only adds rows and never moves one back to pending; what a row was made with stays, and a deleted row stays as it is. |
| InjectQueue.StepMoves | eyot-backend/app/core/inject_queue.py:133-264 | Every operation makes its own moves only: a poll delivers or expires pending rows, an acknowledgement takes delivered rows it names, a failure the one row it names, a sweep overdue pending rows. |
| InjectQueue.StepDocumented | eyot-backend/app/models/inject_queue.py:33-35 | An operation keeps every row in the documented lifecycle exactly when it does not report a failure for an undeleted row that is neither pending nor failed. |
| InjectQueue.RunDocumented | eyot-backend/app/models/inject_queue.py:33-35 | Over every run all steps follow the documented lifecycle exactly when none is such a late failure. |
| InjectQueue.AppliedThenFailed | eyot-backend/app/core/inject_queue.py:208-231 | The witness: an acknowledged row that fails afterwards ends as failed and keeps its applied event. |
| InjectQueue.FirstInFirstOut | eyot-backend/app/core/inject_queue.py:155-169 | If the creation keys of an instance's rows never go back, its rows are delivered in the order they were enqueued, over every run. |
| SafePoint.SafePointGuard.DoHold | eyot-backend/app/agent_runtime/safe_point.py:47-48 | The item is held last. |
| SafePoint.SafePointGuard.OnToolUse | eyot-backend/app/agent_runtime/safe_point.py:50-51 | One more tool use is outstanding. |
| SafePoint.SafePointGuard.OnToolResults | eyot-backend/app/agent_runtime/safe_point.py:53-54 | One fewer, never below zero. |
| SafePoint.SafePointGuard.DoFlush | eyot-backend/app/agent_runtime/safe_point.py:56-61 | At a safe point everything held is released in order, otherwise nothing. |
| SafePoint.HeldInOrder | eyot-backend/app/agent_runtime/safe_point.py:47-61 | Over every trace, what was released followed by what is pending is what was held, in order. |
| SafePoint.SafeExactly | eyot-backend/app/agent_runtime/safe_point.py:50-54 | The counter is zero exactly when from no point of the trace on there are more tool uses than results. |
| SafePoint.ReleasedSafely | eyot-backend/app/agent_runtime/safe_point.py:56-61 | Whatever an operation releases, it releases by a flush with no tool use unmatched, and it releases all that was held. |
| SafePoint.FlushExactly | eyot-backend/app/agent_runtime/safe_point.py:56-61 | Over every trace a flush releases everything still held exactly when no tool use is unmatched, and nothing otherwise. |
| PodLoop.AppliedInOrder | eyot-backend/app/agent_runtime/loop.py:270-297 | Over every interleaving of the backend with the pod's poll loop and main loop, with lost responses, kills and failed requests, the instance's soft injects and wakes are applied in the order they were enqueued. |
| PodLoop.AppliedAtSafePoint | eyot-backend/app/agent_runtime/loop.py:398-404 | Each is applied by the main loop only, after the guard released it and with no tool use outstanding. |
| PodDelivery.NothingLost | eyot-backend/app/agent_runtime/loop.py:270-297 | Over every run in which no response is lost or carries a kill and nothing is cancelled: the soft injects and wakes of the instance that polls returned are, in that order and each once, given to the main loop, being applied, held by the guard, or in the inbox. |
| PodDelivery.TakenOrWaiting | eyot-backend/app/agent_runtime/loop.py:270-297 | The same for all rows the polls returned, notifications too: looked at, or in the inbox. |
| PodDelivery.AllAccountedFor | eyot-backend/app/agent_runtime/loop.py:239-297 | When the acknowledgements arrive as well and nobody else fails the instance's rows, those given to the main loop are exactly those with an applied event, in order. |
| PodDelivery.NotificationsAcked | eyot-backend/app/agent_runtime/loop.py:239-296 | Under the same conditions every notification that the pod looked at is acknowledged. |
| PodDelivery.EverythingApplied | eyot-backend/app/agent_runtime/loop.py:239-404 | From every such run the pod can go on, by itself and its tools, until the soft injects and wakes returned to it are exactly the ones applied, in order. |
| PodDelivery.LostForGood | eyot-backend/app/agent_runtime/loop.py:270-297 | A row whose response did not reach the pod, or that a cancellation dropped, is given to the main loop in no continuation. |
| PodDelivery.AppliedBetweenTools | eyot-backend/app/agent_runtime/loop.py:390-404 | Whenever a row of the instance is applied, every tool use that the main loop met has its results. |
| PodLoop.AgentPod.ApplyInject | eyot-backend/app/agent_runtime/loop.py:239-268 | Applying an item acknowledges it if it has a queue id. |
| PodLoop.AgentPod.HandleEvents | eyot-backend/app/agent_runtime/loop.py:280-287 | Control events are read up to and with a kill, which sets the stop flag; the cursor is the largest numeric id among those read. |
| PodLoop.SeenIsLargest | eyot-backend/app/agent_runtime/loop.py:280-287 | The cursor is the largest of where it stood and the numeric ids of the events read. |
| PodLoop.AgentPod.HandleInjects | eyot-backend/app/agent_runtime/loop.py:288-296 | Soft injects and wakes are held in order; notifications are applied at once. |
| PodLoop.AgentPod.HandleResponse | eyot-backend/app/agent_runtime/loop.py:280-296 | A response with a kill in it leaves all its injects unlooked at; the cursor is the largest id up to the kill. |
| PodLoop.AgentPod.FlushPoint | eyot-backend/app/agent_runtime/loop.py:402-404 | At the safe point what the guard releases is applied, in order; nothing otherwise. |
| PodLoop.InjectsAreSteps | eyot-backend/app/agent_runtime/loop.py:288-296 | What the loop over a response holds and acknowledges, it holds and acknowledges as one step of the interleaved system for each item. |
| PodLoop.FlushIsSteps | eyot-backend/app/agent_runtime/loop.py:402-404 | The same for the loop over what a safe point releases. |
| Harness.HarnessSupervisor.EmitEvent | eyot-backend/app/core/events.py:104-139 | Dispatch, with the handlers it re-enters, has the effect of the event function. |
| Harness.HarnessSupervisor.OnHarnessEvent | eyot-backend/app/core/harness_supervisor.py:93-108 | Each kind of event reaches its handler: a start sets a fresh entry with its clock running, a stop drops it, a continuation marks the time of a known one; others leave the registry alone. |
| Harness.HarnessSupervisor.HandleCheckpoint | eyot-backend/app/core/harness_handlers.py:144-163 | Count, tokens and stamp are updated, then the breakers are checked; a bad token stops after the count. |
| Harness.HarnessSupervisor.CheckBreakers | eyot-backend/app/core/harness_supervisor.py:110-128 | Without a loop-state row nothing is checked; the first reached limit trips. |
| Harness.HarnessSupervisor.TripBreaker | eyot-backend/app/core/harness_breakers.py:32-73 | The three events are dispatched in order and committed together, up to the point of a fault. |
| Harness.HarnessSupervisor.SetLoopStatus | eyot-backend/app/core/harness_supervisor.py:130-148 | The status alone changes, with one event; a missing row is reported and changes nothing. |
| Harness.HarnessSupervisor.HandleInterrupt | eyot-backend/app/core/harness_supervisor.py:150-165 | The status, the two events in order, and the entry is dropped. |
| Harness.HarnessSupervisor.HandlePause | eyot-backend/app/core/harness_supervisor.py:167-170 | Only the status and one event. |
| Harness.HarnessSupervisor.HandleResume | eyot-backend/app/core/harness_supervisor.py:172-175 | Only the status and one event. |
| Harness.HarnessSupervisor.DoRehydrate | eyot-backend/app/core/harness_supervisor.py:60-76 | The entries of running loops are those saved in their rows; every other entry stays, and there is no other. |
| Harness.ReasonIsFirst | eyot-backend/app/core/harness_breakers.py:105-130 | A reason is reported exactly when its limit is reached and none before it in order; none exactly when the metrics are strictly below all four. |
| Harness.CheckpointExact | eyot-backend/app/core/harness_handlers.py:144-163 | A good checkpoint adds one whole triple with the first reason, or nothing; its entry is then gone or strictly below all four limits. |
| Harness.FaultyTrip | eyot-backend/app/core/harness_supervisor.py:123-127 | When writing a trip fails the entry is kept exactly if the fault comes before the stop event is dispatched; after a failed commit it is gone, against the comment in the source. |
| Harness.CheckpointsTrip | eyot-backend/app/core/harness_breakers.py:105-115 | Any `max_continuations` good checkpoints of an instance that nobody starts, stops, interrupts or reloads contain a trip, whatever other instances do in between. |
| Harness.EntryIsUsed | eyot-backend/app/core/harness_handlers.py:144-163 | As long as a started loop has not tripped, its entry is what its actions since the start add up to: checkpoints, tokens, the time of the start and of the last sign of life, whatever other instances do. |
| Harness.LoopTripsExactly | eyot-backend/app/core/harness_breakers.py:105-130 | Started, left alone and not tripped so far, a loop trips at its next good checkpoint exactly when the number of checkpoints, the tokens, the time since the start or the time since the last stamp, told from its actions alone, reaches its limit. |
| Harness.IdleExactly | eyot-backend/app/core/harness_breakers.py:119-129 | A checkpoint trips for idleness exactly when the time from its own stamp to its evaluation reaches the limit and none of the other three limits is reached. |
| Harness.IdleTripsExactly | eyot-backend/app/core/harness_breakers.py:119-129 | Over every run the idle trips dispatched for an instance are its checkpoints evaluated that late, and those somebody else sends. |
| Harness.SilenceNeverTrips | eyot-backend/app/core/harness_breakers.py:125-129 | However long an instance is silent between checkpoints, it gets no idle trip as long as each checkpoint is evaluated promptly. |
| CheckpointOverlap.ArriveExactly | eyot-backend/app/core/harness_supervisor.py:110-128 | With checkpoints split at their database waits, and faults, starts, stops and new limits in between: a checkpoint that arrives leaves no metrics to trip twice, however things go on, exactly when no open checkpoint holds the metrics it takes. |
| CheckpointOverlap.RunOnce | eyot-backend/app/core/harness_supervisor.py:110-128 | Over every run in which each checkpoint arrives that way, no metrics have two committed trips. |
| CheckpointOverlap.AloneIsCheckpoint | eyot-backend/app/core/harness_handlers.py:144-163 | The moves of one checkpoint with nothing in between have the effect of the whole one, and commit a trip exactly when it does. |
| WorkerPool.MapWithConcurrencyLimit | eyot-instance-host/subagents/extension/index.ts:219-237 | For any choice of the worker that goes next it ends, with the calls' values in the order of the items exactly when no call is rejected, else with the error of a rejected call. |
| WorkerPool.TurnValid | eyot-instance-host/subagents/extension/index.ts:228-234 | Every turn keeps each claimed index with the one worker that claimed it, or settled with the value of its own call. |
| WorkerPool.RunValid | eyot-instance-host/subagents/extension/index.ts:225-235 | Under every interleaving of the workers that invariant holds and no more calls are awaited than the limit. |
| WorkerPool.LimitReached | eyot-instance-host/subagents/extension/index.ts:225-235 | The limit is used: once each worker has had a turn, that many calls are awaited. |
| WorkerPool.WhenAllEnded | eyot-instance-host/subagents/extension/index.ts:228-236 | When all workers have ended and one of them without a rejection, every index was claimed and is settled. |
| WorkerPool.TurnDecreases | eyot-instance-host/subagents/extension/index.ts:229-233 | Every turn of an active worker decreases a measure. |
| OutputCap.TruncateParallelOutput | eyot-instance-host/subagents/extension/index.ts:193-202 | An output that fits is kept whole; otherwise the longest prefix that fits is kept, and the number reported as omitted is the size of the omitted text exactly when no surrogate pair lies across the cap. |
| OutputCap.CutBytes | eyot-instance-host/subagents/extension/index.ts:194-201 | A cut keeps the number of UTF-8 bytes but for a split surrogate pair, which counts two more. |
| OutputCap.SplitExactly | eyot-instance-host/subagents/extension/index.ts:194-201 | The longest prefix that fits ends inside a surrogate pair exactly when a pair starts three bytes before the cap. |
| OutputCap.SplitOutput | eyot-instance-host/subagents/extension/index.ts:194-201 | An output with such a pair: one byte is reported as omitted where three are. |
| MigrationHash.HashIgnoresOrder | eyot-backend/app/core/migration_hash.py:51-90 | Lists with the same items have the same hash in any order, if no two different items have the same key-sorted JSON. |
| MigrationHash.TiesKeepOrder | eyot-backend/app/core/migration_hash.py:51-64 | The sorted list is the same for every order the items come in exactly when no two different items have the same key-sorted JSON. |
| MigrationHash.SortsSame | eyot-backend/app/core/migration_hash.py:51-64 | Two lists sort to the same list exactly when, key by key, they have the same items in the same order. |
| MigrationHash.HashExactly | eyot-backend/app/core/migration_hash.py:45-90 | Where the digest and the JSON of lists tell apart the texts at hand, two surfaces have the same hash exactly when they list the same items, in the same order under each key, and have the same prompt; none counts as empty, for both. |
| Capabilities.CapabilityStore.CollectGenes | eyot-backend/app/core/capabilities.py:88-120 | One query result goes into the dictionary, by assignment or by setting what is absent; deleted genes are passed over. |
| Capabilities.GenesHeld | eyot-backend/app/core/capabilities.py:88-120 | Each slug is in the dictionary once at most, and exactly when an undeleted gene with it is attached; what it holds is the manifest of the gene attached explicitly last, or else of the one inherited first. |
| Capabilities.CapabilityStore.LoadEntityGeneInlineCapabilityDicts | eyot-backend/app/core/capabilities.py:75-130 | The inline capabilities of the genes in that dictionary, in its order. |
| Capabilities.CapabilityStore.LoadEntityCapabilityDicts | eyot-backend/app/core/capabilities.py:133-187 | The merging loop with its set of names computes the surface. |
| Capabilities.SurfaceHolds | eyot-backend/app/core/capabilities.py:139-187 | The surface is in order of name; under each name it lists the attached market capabilities, and where there is none the first inline one, alone. |
| Capabilities.SurfaceSources | eyot-backend/app/core/capabilities.py:49-187 | Told by rows: whatever is in the surface shows an attached, undeleted market entry or spells an inline item of a gene the entity has; every attached entry is there, and every inline item is there at least by name. |
| Capabilities.BaseFound | eyot-backend/app/core/capabilities.py:97-120 | An active base class with the slug of the preset is found whenever there is one, the first; an empty preset names none. |
| Capabilities.CapabilityStore.BumpEntityMigrationHash | eyot-backend/app/core/capabilities.py:502-507 | One entity gets the hash of its present surface. |
| Capabilities.CapabilityStore.BumpEntitiesForBaseClass | eyot-backend/app/core/capabilities.py:510-519 | Exactly the active entities with the preset get theirs. |
| Capabilities.CapabilityStore.BumpEntitiesForGene | eyot-backend/app/core/capabilities.py:522-552 | Exactly the active entities that attach the gene, or whose preset is an active base class that does, get theirs. |
| Capabilities.CapabilityStore.UpdateAiGene | eyot-backend/app/api/v1/ai_genes.py:203-245 | A manifest update sets the manifest of that gene and nothing else but hashes, and bumps exactly when the inline capabilities change. |
| Capabilities.PassedOverUnchanged | eyot-backend/app/core/capabilities.py:522-552 | An entity that the bump passes over has the same surface after the gene changed, through both the explicit and the base-class path. |
| Capabilities.SurfaceSame | eyot-backend/app/core/capabilities.py:75-187 | What the surface depends on: the entity's links, its base class and that class's links, and the genes and market rows; not the stored hashes. |
| Capabilities.LinksChange | eyot-backend/app/core/capabilities.py:346-500 | By tables: an attachment gains the owner the link it names where it had not, a detachment loses it once, each whenever its rows are active; nobody else's links change, and nothing else but hashes. |
| Capabilities.RunCoherent | eyot-backend/app/core/capabilities.py:346-552 | Over every run of gene updates, attachments and detachments with their bumps, every active entity keeps the hash of its present surface. |
| Capabilities.SurfaceSurvives | eyot-backend/app/api/v1/ai_genes.py:249-278 | Deleting a gene leaves an entity's surface alone exactly when each name the gene gives is the name of an attached capability, or the entity's other genes give the same capability under it. |
| Capabilities.DeletionExact | eyot-backend/app/api/v1/ai_genes.py:249-278 | Deleting a gene, after which no hash is computed again, leaves the stored hashes right exactly when every active entity that uses it, directly or through its base class, loses nothing in that sense; undeleted genes have different slugs, as the index demands, and the digest is taken to tell two surfaces of an entity apart. |
| Capabilities.GeneDeletionBreaks | eyot-backend/app/api/v1/ai_genes.py:249-278 | The witness: one entity, one gene with one inline capability; after the deletion the stored hash is wrong. |
| SilentEdits.EditExactly | eyot-backend/app/api/v1/entities.py:232-358 | A request that recomputes no hash - editing or deleting an entity, editing or deleting a market entry, deleting a gene or a base class - leaves the stored hashes right if, and with a digest that tells inputs apart only if, every remaining entity keeps its surface and its prompt. |
| SilentEdits.RunExactly | eyot-backend/app/core/capabilities.py:346-552 | Over every run of these requests and of those that recompute hashes, the stored hashes are right after each exactly when no request of the first kind changes the surface or the prompt of an entity. |
| SilentEdits.EntityHarmless | eyot-backend/app/api/v1/entities.py:232-358 | Editing an entity is harmless exactly when its own surface and prompt stay; with the same preset exactly when its prompt does, absent counting as empty. |
| SilentEdits.EntityGone | eyot-backend/app/api/v1/entities.py:508-556 | Deleting an entity is always harmless. |
| SilentEdits.GeneHarmless | eyot-backend/app/api/v1/ai_genes.py:249-278 | Deleting a gene is harmless exactly when no active entity that uses it loses anything. |
| SilentEdits.MarketHarmless | eyot-backend/app/api/v1/capability_market.py:219-247 | Deleting a market entry is harmless exactly when, for each active entity that attaches it, nothing else attached has its name and the entity's genes give under that name just what the entry gave. |
| Slugs.UniqueSlug | eyot-backend/app/core/cerebellum_migration.py:79-95 | The search for a free suffix ends with a slug that is free: the base itself if it is, else the base with the smallest number from 2 on that is. |
| Slugs.Pigeonhole | eyot-backend/app/core/cerebellum_migration.py:92-95 | Only as many candidates can be taken as there are slugs, since all candidates differ. |
| Slugs.DigitsRead | eyot-backend/app/core/cerebellum_migration.py:79-95 | The suffix is the number in decimal digits. |
| Cerebellum.CerebellumStore.Scan | eyot-backend/app/core/cerebellum_migration.py:108-152 | Live agents are grouped by namespace in order of appearance, and orphans counted. |
| Cerebellum.CerebellumStore.EnsureEntity | eyot-backend/app/core/cerebellum_migration.py:166-199 | The namespace's entity is reused, its empty prompt filled, or it is created from the winner. |
| Cerebellum.CerebellumStore.SeatAll | eyot-backend/app/core/cerebellum_migration.py:201-243 | Every agent gets an instance in its workspace; all but the winner leave a merge event. |
| Cerebellum.CerebellumStore.MigrateGroup | eyot-backend/app/core/cerebellum_migration.py:154-251 | One namespace: entity, instances, events, and the agents marked deleted. |
| Cerebellum.CerebellumStore.MigrateCerebellum | eyot-backend/app/core/cerebellum_migration.py:98-253 | The whole run, with a report that counts what was scanned, orphaned, created and merged. |
| Cerebellum.RankedFirst | eyot-backend/app/core/cerebellum_migration.py:155-164 | No agent of the group is ahead of the winner by heartbeat, creation or identifier. |
| Cerebellum.EntityThere | eyot-backend/app/core/cerebellum_migration.py:166-199 | After it the namespace has its entity, other namespaces theirs unchanged, none is doubled, and a new slug is free. |
| Cerebellum.MigrationComplete | eyot-backend/app/core/cerebellum_migration.py:98-253 | Every agent that is no orphan is retired into the one entity of its namespace and an instance in its workspace; nothing is doubled; merged is migrated minus namespaces; rows only get a deletion mark. |
| CerebellumRows.MigrationRows | eyot-backend/app/core/cerebellum_migration.py:154-253 | By rows: an entity that was there keeps everything but an empty prompt, a new one is made from the most recent agent of its namespace; a new instance belongs to the entity of a migrated namespace, in a workspace of its agents, with the status of the most recent agent there; a new event is about an agent that was not the most recent; instances and events that were there stay. |
| CerebellumRows.Counted | eyot-backend/app/core/cerebellum_migration.py:98-152 | What the report counts: the agents that are not deleted, and those with an active hub and a namespace. |
| Cerebellum.MigrationIdempotent | eyot-backend/app/core/cerebellum_migration.py:105-106 | A second run writes nothing. |
| Overlay.DeepMerged | eyot-backend/app/core/overlay.py:25-33 | The loop over the override, with its recursive call, computes the merge. |
| Overlay.MergeIdempotent | eyot-backend/app/core/overlay.py:25-33 | Merging a dictionary over itself changes nothing. |
| Overlay.MergeAbsorbs | eyot-backend/app/core/overlay.py:25-33 | Applying an override twice is applying it once. |
| Overlay.MergeAtPath | eyot-backend/app/core/overlay.py:27-32 | At every key path the override decides, unless it does not reach the path, or both sides have a dictionary there. |
| Overlay.CoversExactly | eyot-backend/app/core/overlay.py:27-32 | A merge is the override itself exactly when the override has every key of the base at every depth both share. |
| Overlay.AssociativeExactly | eyot-backend/app/core/overlay.py:25-33 | Merging is associative exactly where no leaf stands between two dictionaries of which the last does not cover the first. |
| Pagination.FollowingGivesTable | eyot-backend/app/core/pagination.py:94-135 | Over a fixed ascending table, following the cursor returns every row once in order exactly when no page ends between two equal fields, in as many requests as there are pages. |
| Pagination.StrictTableComplete | eyot-backend/app/core/pagination.py:105-118 | With different fields throughout that is always so. |
| Pagination.PageCount | eyot-backend/app/core/pagination.py:94-135 | The number of pages: one for no rows, else the rows divided by the limit, rounded up. |
| Knowledge.GroupByKey | eyot-backend/app/core/knowledge.py:174-176 | The groups are the rows of each key, in query order, and the keys come in the order of their first rows. |
| Knowledge.Best | eyot-backend/app/core/knowledge.py:180-184 | The first candidate at the narrowest scope beats all others. |
| Knowledge.ResolveKnowledgeWinners | eyot-backend/app/core/knowledge.py:130-185 | Exactly one row for each visible key, the one that beats every other by scope, then update, then identifier; in the order of the newest visible row of each key, which need not be the winner. |
| Knowledge.ResolutionUnique | eyot-backend/app/core/knowledge.py:141-144 | There is only one such set of rows. |
| Knowledge.OnlyItsOwn | eyot-backend/app/core/knowledge.py:130-160 | A winner is a system row or one of the asking organisation, down to its own namespace and workspace, of no other entity or instance, not deleted, and of the keys asked for. |
| Knowledge.NarrowestNewest | eyot-backend/app/core/knowledge.py:172-185 | No visible row with its key is of a narrower scope than the winner, and none of its scope was updated later. |
| Knowledge.LoserChangesNothing | eyot-backend/app/core/knowledge.py:172-185 | A row that is not visible, or that the winner of its key beats, leaves the set of winners unchanged. |
| Knowledge.LoserMovesNothing | eyot-backend/app/core/knowledge.py:162-185 | A visible row that loses leaves the list as it is exactly when every key listed before its own has a newer newest row. |
| Knowledge.HiddenMovesNothing | eyot-backend/app/core/knowledge.py:162-185 | A row that is not visible leaves the list as it is. |
| Knowledge.LoserCanMove | eyot-backend/app/core/knowledge.py:162-185 | The witness: a newer system row, beaten by its organisation's row, moves its key to the front. |

## Left out

- SlashParser.ParseTurn: characters are Unicode scalar values and white space is the set that Python's `str.split` uses; lone surrogates in the input are not modelled.
- SlashPrinter.RoundTrip: the words of a bare mention contain no command or mention, which have no unambiguous form in the protocol; references anywhere on a command line are the subject of `SlashCommand.CommandLineParsed`.
- Framing.AnyChunking: starts from decoded characters; decoding UTF-8 across chunk boundaries and what is left in the buffer between two child processes are not modelled.
- ChatBridge.ChatBridge.OnPiEvent: the rendering of error values by `JSON.stringify` and `String` is a field of the event; string lengths count characters, not 16-bit units.
- Composer.TurnDelivered: database writes of the transcript are taken to succeed; the source logs and swallows their failures. The subscriber's side of the queue is not modelled.
- InjectQueue.InjectService.PollPendingInjects: selects and flips in one step; `PollOverlap` has the two apart.
- InjectQueue.RunValid: its operations come one at a time; overlapping polls are the subject of `PollOverlap`, overlapping acknowledgements that of `AckOverlap`. Polls and acknowledgements that both overlap are not modelled.
- AckOverlap.RunOnce: an applied event is there with the commit that writes it; its handlers run before, when it is flushed.
- PollOverlap.RunOnce: overdue rows expire as soon as a poll selects; a flip that waits for another's row lock is a flip that comes later.
- InjectQueue.FirstInFirstOut: needs creation keys that do not go back; two rows created in the same microsecond are ordered by their random identifiers.
- InjectQueue.InjectService.AckInjects: the order of rows in the unordered query is table order.
- PodLoop.AppliedInOrder: the instance is polled and acknowledged by one pod, and its two coroutines are a state machine over their waits; the loops of one response and one flush are the methods of `AgentPod`. The backend's event ids are text, so the numeric cursor of `loop.py:281-283` never moves; which events a poll returns is not modelled.
- Harness.HarnessSupervisor.HandleCheckpoint: one event is handled at a time; checkpoints of one instance that come between each other are the subject of `CheckpointOverlap`.
- CheckpointOverlap.RunOnce: one instance; what is counted is committed trips, as a trip that fails is meant to be tried again.
- ChatBridge.InterruptedTurnNeverEnds: output that the killed runtime had written and nobody had read yet counts as events before the interrupt.
- Harness.HarnessSupervisor.OnHarnessEvent: the hub summary and memory row of a checkpoint are left out, as are other handlers of the same events.
- TaskQueue.FairOrder: needs that no worker is started while a stop has still to return, which `TaskQueue.StartExactly` shows to be needed. The resolution of the clock is exact: a timer ends only when its task is due.
- Clone.WorkspaceStore.CloneWorkspace: the hub and vault rows of the copy and the helpers for new names are left out; the destination identifier is taken to be new, and so is one request at a time. Two live rows for one pair in opposite orientations, which no forest has, would make the copy fail on the unique index.
- Topology.PassageStore.CheckPassage: the queries of one check, which the source sends one after another, read one state; of several rows for one pair the first in the table is found.
- Topology.RunForest: cloning is not a step of these runs (`Clone.CloneKeepsForests` stands beside them); positions, permissions and users of seats are left out.
- Topology.PassageStore.SoftDeletePassagesTouching: identifiers are never empty, so the filter for empty ones is left out.
- Capabilities.RunCoherent: each route is one step, and requests come one at a time; the routes that recompute no hash are the subject of `SilentEdits`. Queries without an order return rows in table order.
- SilentEdits.RunExactly: creating rows, and promotion, which sets its own hash, are no steps.
- MigrationHash.HashIgnoresOrder: needs the condition it states, because the list is dumped without sorting keys.
- Cerebellum.CerebellumStore.MigrateCerebellum: it runs alone; time stamps of the new rows are left out, and so is the runtime helper beside the migration, which does the same for one workspace.
- OutputCap.TruncateParallelOutput: the notice is its number, not its wording.
- Overlay: `resolve_entity_config` around the merge is a list of key assignments.
- Passages: `find_active_passage_between` is one query.
- HTTP routes, authentication, schemas, ORM declarations and logging: no hard property.
- Kubernetes, deployment, LLM clients, prompt texts, WebSockets and file mirroring: foreign input and output.
- The portal and the asset scripts: user interface and network scripts.
