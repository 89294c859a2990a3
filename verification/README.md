# Powabase AI: protocols and migrations, proved

This project models the stateful core of the Powabase AI service — the code where several
parties write the same rows, or where a migration rewrites data that must still mean the
same afterwards — and proves what the code keeps and exactly where it stops keeping it.
Each module is one component. Code that updates state step by step is a class or a method
with loops, proved against a function; protocols with several threads are step systems in
which any order of steps is a run, and their theorems hold for every run. `dafny verify
dfyconfig.toml` checks everything.

| module | component |
|---|---|
| `AgentEvents` | the queue drain and final-text rule shared by streamed agent and orchestration runs |
| `AgentRun` | a streamed agent run: SSE generator, worker thread, LLM generator, disconnects, background finisher |
| `RetrievedContext` | resolving context items by placeholder; merging what tools retrieved |
| `SessionMessages` | replaying an orchestration session: grouping messages, events and tool calls |
| `CopilotHistory` | the copilot prompt: trailing window, trim, repair |
| `TurnHistory` | the rows of a copilot session in the order of their time stamps, as readers get them |
| `TurnLock` | the token-fenced turn lock of both copilots and the turns that race for it |
| `IndexedSources` | who owns a row of `indexed_sources`: mark, claim, complete, reset, cancel, recover |
| `ProviderKeys` | decrypting stored keys, deleting dead rows under concurrent writers, resolving a key |
| `RateLimit` | the fixed-window counters of the docs search |
| `RowSecurity`, `Partitioning`, `PartitionLaws` | migration 0031 and its inverse |
| `UsageBackfill` | migration 0019 with its commit points |
| `LikeSearch`, `SourceListing` | migration 0023: escape chain, LIKE matcher, order, pages, totals |
| `SystemKeys` | migration 0015b, upgrade and downgrade |

## What the proofs found

Where a promise of the documentation, or an obvious expectation, does not hold of the code,
the code is kept as it is and a lemma gives the exact condition, or the runs that break it.

- The docstring of 0031 promises that readers see exactly what they saw before. That holds if
  and only if the owner is not forced under row security and holds every privilege, PUBLIC
  holds what new tables grant it, no default privilege widens a role, and grants on single
  columns add nothing (`AccessKeptExactly`). A table with a policy whose sub-select names one of
  the table's own columns is not converted at all: the copied text names the renamed table
  (`Copyable`, `PartitionOne`).
- Folding the partitions back "keeping every row" fails whenever two partitions store one id,
  which nothing prevents, since the parent has no primary key (`FoldSucceedsExactly`,
  `SharedIdBlocksFold`).
- A disconnected chat run stays RUNNING for good if anything raises in the finisher between its
  drain and its commit, and only then (`EveryRunSettles`, `RunMayStayRunning`).
- A charged run can end FAILED: a disconnect at the last ReAct frame, or after the chat loop,
  rewrites a COMPLETED row (`ChargedReactRunMayEndFailed`, `ChargedChatRunMayEndFailed`,
  `DemotingSteps`).
- A chunk in flight is lost exactly when the client leaves at a delta frame
  (`ChunkLostIffLeftAtDelta`).
- A hook-edited answer is not stored when the run streamed and its output carries no content
  (`VettedTextStored`).
- The turn lock serializes the storing of rows as long as no step takes it from an open turn
  (`call_on_close` and the expiry may), lets one in without it (Redis down), or ends a turn
  between its two rows. That is not enough for the history: it is sorted by the start of the
  writing transaction, and a turn's transaction starts before it asks for the lock. What is read
  alternates, and ends in the new message, if and only if each user row's transaction began
  behind that of the reply before it (`TurnsAreSerialized`); a turn that begins before the transaction
  of another's reply, and gets the lock when that is stored, is read as user, user, assistant
  (`EarlyTurnDisorders`, `EarlyTurnNeedsRepair`, `EarlyTurnHappens`). With that condition on the
  turns that are let in, the whole is exact step by step (`CarefulExactly`, `ExclusionExactly`).
- A re-enrichment leaves its rows 'indexing' exactly if its task dies without the closing write
  or its request is killed behind the mark (`MarkFirstLeavesExactly`); the watchdog takes them
  after two minutes (`MarkDefersWatchdog`).
- `rowcount == 0` is documented as a concurrent re-add; a concurrent heal of the same row has
  the same effect, and then the provider is not reported (`ConcurrentHealUnreports`). A dropped
  'google' row raises nothing for a 'gemini' model (`AliasedDropIsSilent`). The heal is documented
  to commit and does not: a healed row is gone for the next request exactly if this one commits,
  which the agent run routes that report the row as removed do not (`HealedRowGoneExactly`,
  `KeyStore.RunRequest`).
- The per-minute limit is a limit per start of the counter (`PassedPerStart`): a script that
  runs a minute or more behind the last start begins a new allowance (`RestartsExactly`), so
  requests that are held up pass without bound (`LateScriptsPassUnbounded`).
- The route reports a total of 0 for a page past the end (`RouteTotalExactly`).
- A rerun of 0019 before its column drop duplicates event rows (`ConsistentExactly`).
- A run with events but neither content nor error is missing from the messages of a replay
  (`MessagesCarryAllExactly`).

## Assumptions

Database writes succeed unless a step says otherwise; PostgreSQL enforces its own constraints
(partition bounds, primary keys, unique columns); Redis scripts are atomic. Row security and
privileges follow sections 5.7 and 5.8 of the PostgreSQL 15 manual, partitioning section 5.11,
LIKE section 9.7.1. Clocks, tokens, schedules, what an exception interrupts, what decrypts, and
which policy expression holds of which row are parameters or steps, so every theorem covers all
of them. Case folding is any character map that leaves the three LIKE metacharacters alone; a
collation is any ranking of names. The database's clock does not run backwards and moves on across
a commit; beyond that, transactions may start at the same stamp, and rows of one stamp are read in
any order. A row that a transaction has deleted stays locked until its end. The death of the process
and a BaseException in a generator are not steps of a run in `AgentRun`, so a RUNNING row that either
leaves behind is outside `EveryRunSettles`; in `TurnLock` and `IndexedSources` such deaths are steps.

## Model

| member | source | states |
|---|---|---|
| `AgentEvents.Drain` | src/agentic_project_service/routes/agents.py:2417-2473 | For every schedule of queue reads and every point at which the client leaves: the content buffer, delta count and kept events are those of the events taken so far, one frame goes out per read in order, and the loop ends only at the sentinel or a yield. |
| `AgentEvents.PreResponseEdited` | src/agentic_project_service/routes/agents.py:124-133 | True exactly if some PreResponse hook result modified or blocked the response. |
| `AgentEvents.PersistedAt` | src/agentic_project_service/routes/agents.py:2428-2463 | Every kept event stands exactly behind the events kept before it: order is preserved. |
| `AgentEvents.PersistedIsExact` | src/agentic_project_service/routes/agents.py:2428-2463 | Step events and hook results are kept in both routes, registered citations in the orchestration route, deltas in none; each as often as it was emitted, and nothing else. |
| `AgentEvents.DeltaTextConcat` | src/agentic_project_service/routes/agents.py:2428-2431 | Buffering and counting are concatenation: draining two stretches of events gives the texts one after the other and the counts added up. |
| `AgentEvents.DeltasOfOne` | src/agentic_project_service/routes/agents.py:2428-2434 | One event adds its text if it is a content delta, and counts if it is a delta of either kind. |
| `AgentEvents.EditedSurvives` | src/agentic_project_service/routes/agents.py:2490-2503 | A PreResponse edit is visible among the kept events exactly when it was emitted. |
| `AgentEvents.VettedTextStored` | src/agentic_project_service/routes/orchestrations.py:1269-1308 | After a PreResponse edit the vetted text is what is stored, in both routes, if and only if the run did not stream or its output has content (or there is nothing to leak). |
| `AgentEvents.StreamedTextStored` | src/agentic_project_service/routes/orchestrations.py:1269-1308 | Without an edit, a streamed run stores exactly the concatenation of its deltas. |
| `AgentEvents.OutputStored` | src/agentic_project_service/routes/orchestrations.py:1269-1308 | Without streaming the content of the output is stored, edited or not. |
| `AgentRun.InvAlways` | src/agentic_project_service/routes/agents.py:2327-3182 | In every interleaving of generator, worker, LLM generator, finisher and disconnects: the invariant tying row, log, queue, chunks and sent frames together holds. |
| `AgentRun.EveryRunSettles` | src/agentic_project_service/routes/agents.py:250-392 | Once everything has stopped, a run row that was created is RUNNING if and only if an exception ended the finisher before its commit and no terminal status had been committed; otherwise it is COMPLETED or FAILED. The branch for a run that was never persisted is not taken. |
| `AgentRun.TerminalStatus` | src/agentic_project_service/routes/agents.py:2525-2700 | In every run: at the `complete` frame the row is COMPLETED and one charge was posted if the worker returned a successful output (the LLM generator ended with one, in the chat branch), and FAILED without a charge otherwise; the terminal chunk of a chat run goes out exactly if the run streams and has text. |
| `AgentRun.CompletedMeansSuccess` | src/agentic_project_service/routes/agents.py:290-384 | In every run: a COMPLETED row means that the worker, the chat loop or what the finisher drained was a success; a finisher that committed wrote COMPLETED and charged exactly then, unless its charge raised unposted. |
| `AgentRun.ExceptionFails` | src/agentic_project_service/routes/agents.py:3110-3160 | In every reachable state: an exception between two yields, of the LLM or of the worker ends in the error frame, with the row FAILED and its content kept. |
| `AgentRun.LeavingSays` | src/agentic_project_service/routes/agents.py:2868-2897 | In every reachable state: a client that leaves in the ReAct branch or before the chat stream leaves a FAILED row at once; in the chat loop or behind it, the row goes to the finisher as it is. |
| `AgentRun.RaisingDrainFails` | src/agentic_project_service/routes/agents.py:279-306 | A generator that raises under the finisher leaves the text it gave and a FAILED row. |
| `AgentRun.ReactRunDelivers` | src/agentic_project_service/routes/agents.py:2410-2738 | Whatever events the worker emits and whatever it returns, a client that stays gets to the `complete` frame. |
| `AgentRun.ChatRunDelivers` | src/agentic_project_service/routes/agents.py:2840-3040 | The same for whatever chunks the LLM gives and however it ends. |
| `AgentRun.StartFrames` | src/agentic_project_service/routes/agents.py:2785-2808 | Before the first chunk go out the start frame and one frame per dropped message. |
| `AgentRun.DeltaFrames` | src/agentic_project_service/routes/agents.py:2850-2862 | Every delta that a streamed chunk queued goes out as one frame, and the chunk is kept when the client comes back behind the last of them. |
| `AgentRun.EndFrames` | src/agentic_project_service/routes/agents.py:2898-2945 | Behind the last chunk go out the deltas still queued, and one frame per reasoning or error event. |
| `AgentRun.LeftRunIsFinished` | src/agentic_project_service/routes/agents.py:250-384 | A client that leaves in the middle of a chat run leaves the rest to the finisher, which stores what the LLM still gives and writes COMPLETED and charges, or FAILED, by how that ends. |
| `AgentRun.RaisingChargeIsKept` | src/agentic_project_service/routes/agents.py:2680-2700 | An exception while charging leaves a posted charge posted and the row FAILED. |
| `AgentRun.AbortStrandsRunningRow` | src/agentic_project_service/routes/agents.py:290-384 | In every reachable state in which the finisher still owes the first terminal status, an exception leaves the row RUNNING for good. |
| `AgentRun.RunMayStayRunning` | src/agentic_project_service/routes/agents.py:290-384 | Such a run is reachable. |
| `AgentRun.EveryRunCanStop` | src/agentic_project_service/routes/agents.py:250-392 | Every reachable state can be brought to rest, so the statements about quiescent states are never vacuous. |
| `AgentRun.ChargedOnceAfterCompletion` | src/agentic_project_service/routes/agents.py:2668-2698 | In every run at most one agent_run charge is posted, and directly after a COMPLETED status of that run was committed. |
| `AgentRun.DemotingSteps` | src/agentic_project_service/routes/agents.py:3042-3082 | The steps that turn a COMPLETED row FAILED are exactly a disconnect at the last ReAct frame, an exception while charging, and the finisher of a spent generator; every other step leaves it COMPLETED. |
| `AgentRun.ChargedReactRunMayEndFailed` | src/agentic_project_service/routes/agents.py:3068-3082 | A reachable quiescent run was charged and is FAILED, in the ReAct branch. |
| `AgentRun.ChargedChatRunMayEndFailed` | src/agentic_project_service/routes/agents.py:275-303 | The same in the chat branch, through the finisher. |
| `AgentRun.CompleteFrameIsStored` | src/agentic_project_service/routes/agents.py:2615-2738 | From the complete frame on, the stored content is that frame's content whatever happens to the status; in the ReAct branch it is the parsed answer to everything the worker emitted, and the terminal chunk carried that answer. |
| `AgentRun.ReactTextExactly` | src/agentic_project_service/routes/agents.py:2490-2522 | Over whole ReAct runs: the stored text is the parsed output if the run does not stream or a hook edited an answer that has content, and the parsed concatenation of all emitted deltas otherwise. |
| `AgentRun.DrainKeepsUp` | src/agentic_project_service/routes/agents.py:2417-2473 | At every point of every run the buffer and kept events are those of the events taken so far. |
| `AgentRun.FinisherStoresKeptChunks` | src/agentic_project_service/routes/agents.py:250-345 | What the finisher stores is the text of every chunk the LLM produced but the lost one. |
| `AgentRun.JoinTextConcat` | src/agentic_project_service/routes/agents.py:290 | The chunks are joined in their order, with nothing between them. |
| `AgentRun.ChunkLostIffLeftAtDelta` | src/agentic_project_service/routes/agents.py:2850-2897 | A chunk is lost if and only if the client leaves at a delta frame. |
| `AgentRun.LostChunkShortensText` | src/agentic_project_service/routes/agents.py:2850-2897 | Losing a chunk shortens the stored text by exactly that chunk, so it matters unless the chunk was empty. |
| `AgentRun.RunRecord.FinishInBackground` | src/agentic_project_service/routes/agents.py:250-392 | The finisher writes COMPLETED exactly if the generator ended with a successful output, FAILED otherwise, with the parsed text of kept and remaining chunks, and charges exactly after COMPLETED, also when a charge that raises had been posted; when something raises before the commit, nothing is written. |
| `RetrievedContext.ResolveContextItems` | src/agentic_project_service/routes/agents.py:157-247 | Filling placeholders by the zip of indices and ids is one in-order filter-map of the request. |
| `RetrievedContext.ResolveOneSays` | src/agentic_project_service/routes/agents.py:170-190 | An item with an id is looked up by it, and dropped if unknown whatever text it has; one without gives its text, if any. |
| `RetrievedContext.ResolvedConcat` | src/agentic_project_service/routes/agents.py:157-247 | Items resolve one by one, in order. |
| `RetrievedContext.Dedup` | src/agentic_project_service/routes/agents.py:2555-2570 | The loop over seen ids keeps the items without id and the first item of each id, in order. |
| `RetrievedContext.FirstKept` | src/agentic_project_service/routes/agents.py:2555-2570 | An item without id, or the first of its id, stands right behind what was kept of the entries before it. |
| `RetrievedContext.FirstsDistinct` | src/agentic_project_service/routes/agents.py:2555-2570 | No id stands twice in the result. |
| `RetrievedContext.IdsComplete` | src/agentic_project_service/routes/agents.py:2555-2570 | No id of the input is missing. |
| `RetrievedContext.FirstsComplete` | src/agentic_project_service/routes/agents.py:2555-2570 | Items without id stay as often as they came. |
| `RetrievedContext.MergeRetrieved` | src/agentic_project_service/routes/agents.py:2540-2605 | Existing items come first, then the first occurrences of the retrieved ones, behind a header with the total, all in their light form; nothing retrieved leaves the context as it was. |
| `RetrievedContext.ItemsConcat` | src/agentic_project_service/routes/agents.py:2540-2570 | Picking the items out of header entries keeps their order. |
| `RetrievedContext.TotalIsHonest` | src/agentic_project_service/routes/agents.py:2572-2605 | total_items is the number of items stored behind the header in every merge. |
| `RetrievedContext.LightInPlace` | src/agentic_project_service/services/context_handler.py:163-196 | The light form has the same entries in the same places, items under their ids. |
| `RetrievedContext.LightSays` | src/agentic_project_service/services/context_handler.py:163-196 | A stored full document longer than the limit is cut to it, with a notice behind, and points to its storage path; every other text stays whole; images lose bytes and links. |
| `RetrievedContext.LightTwice` | src/agentic_project_service/services/context_handler.py:163-196 | Making the light form of a light form changes nothing. |
| `SessionMessages.GroupByParent` | src/agentic_project_service/routes/orchestrations.py:814-816 | Each group holds exactly the child runs of its parent, in their order. |
| `SessionMessages.ChildrenConcat` | src/agentic_project_service/routes/orchestrations.py:814-842 | The children of a run, and their tool calls, keep the order in which they come. |
| `SessionMessages.Collect` | src/agentic_project_service/routes/orchestrations.py:818-884 | The loop fills the three lists run by run, with reasoning metadata per message and the images of tool calls inlined. |
| `SessionMessages.SummaryFromEvents` | src/agentic_project_service/routes/orchestrations.py:747-763 | The summary joins the texts of the reasoning events in order, and is missing exactly if there is none. |
| `SessionMessages.ThoughtsConcat` | src/agentic_project_service/routes/orchestrations.py:747-763 | The reasoning texts of two stretches of events are those of the first, then those of the second. |
| `SessionMessages.ThoughtOfOne` | src/agentic_project_service/routes/orchestrations.py:754-759 | An event gives a text exactly if it is a reasoning event with text that is not empty. |
| `SessionMessages.JoinConcat` | src/agentic_project_service/routes/orchestrations.py:762 | Texts are set apart by a blank line, in order, and a single one stands alone. |
| `SessionMessages.InputAt` | src/agentic_project_service/routes/orchestrations.py:823-831 | An input that is an object stands behind the messages of those before it, with role "user" and empty content where it names none. |
| `SessionMessages.InputsCounted` | src/agentic_project_service/routes/orchestrations.py:823-831 | There is one message per input that is an object. |
| `SessionMessages.InputsListed` | src/agentic_project_service/routes/orchestrations.py:823-831 | An input that is no list counts as a list of one, a missing one as none. |
| `SessionMessages.MessagesConcat` | src/agentic_project_service/routes/orchestrations.py:822-879 | The messages of two stretches of runs stand one behind the other. |
| `SessionMessages.TopLevelConcat` | src/agentic_project_service/routes/orchestrations.py:881-884 | The top-level events and tool calls follow the runs in their order. |
| `SessionMessages.AnswerSays` | src/agentic_project_service/routes/orchestrations.py:844-879 | A run's messages end in its answer: the content, or else the error behind its prefix, with the run's id and events, and reasoning metadata exactly if it was requested. |
| `SessionMessages.DurationTruncates` | src/agentic_project_service/routes/orchestrations.py:862-866 | The duration is there exactly if both times are, in whole milliseconds cut off towards zero. |
| `SessionMessages.OneAnswerEach` | src/agentic_project_service/routes/orchestrations.py:844-879 | One assistant message per run with content or an error, in the order of the runs. |
| `SessionMessages.MessagesCarryAllExactly` | src/agentic_project_service/routes/orchestrations.py:858-884 | Message by message, the replay shows all top-level events (tool calls) in order if and only if every run that has some has content or an error. |
| `SessionMessages.ToolCallsConserved` | src/agentic_project_service/routes/orchestrations.py:803-842 | Grouping by parent neither loses nor repeats a tool call. |
| `SessionMessages.ReplayConservesCalls` | src/agentic_project_service/routes/orchestrations.py:814-842 | The replay shows every stored tool call, images inlined, as often as it was stored. |
| `SessionMessages.NoReferenceLeft` | src/agentic_project_service/services/context_handler.py:1299-1352 | Resolving keeps every block in its place and leaves no image reference. |
| `SessionMessages.BlockSays` | src/agentic_project_service/services/context_handler.py:1329-1350 | A readable image becomes a data URL of its type, an unreadable one a notice with its path. |
| `CopilotHistory.Trim` | src/agentic_project_service/routes/copilot.py:338-339 | The pop loop gives the longest suffix of the window that starts with a user message. |
| `CopilotHistory.WindowIsLatest` | src/agentic_project_service/routes/copilot.py:315-330 | The window is the last forty messages in order, or all of them. |
| `CopilotHistory.Repair` | src/agentic_project_service/routes/copilot.py:349-359 | The append loop puts one placeholder between consecutive user messages. |
| `CopilotHistory.BuildPrompt` | src/agentic_project_service/routes/copilot.py:315-359 | For every history that ends in the new user row the prompt is one the provider accepts (it starts with a user message, ends with the new one, has no two user messages in a row, at most 79 in all) and says what the window said from its first user message on, with placeholders everywhere else. |
| `CopilotHistory.PlaceholdersRemoved` | src/agentic_project_service/routes/copilot.py:340-359 | Taking the placeholders out gives the trimmed window back, in order; everywhere else there is a placeholder. |
| `CopilotHistory.RepairedAlternation` | src/agentic_project_service/routes/copilot.py:340-359 | No two user messages are adjacent, and two replies exactly where the input had two. |
| `CopilotHistory.TrimmedIsSuffix` | src/agentic_project_service/routes/copilot.py:333-339 | The trim drops exactly the leading replies. |
| `CopilotHistory.PromptIsValid` | src/agentic_project_service/routes/copilot.py:315-359 | For every history that ends in the new user row: the prompt starts and ends with user, has no adjacent user messages, at most 79 messages, and alternates strictly if and only if the window has no adjacent replies. |
| `CopilotHistory.LongestPrompt` | src/agentic_project_service/routes/copilot.py:315-359 | The bound is tight. |
| `CopilotHistory.ProjectPromptExactly` | src/agentic_project_service/routes/project_copilot.py:260-280 | The project copilot's route stops after the trim: its list is what the repair would have given if and only if the window has no orphaned user row. |
| `TurnLock.Redis.TryAcquire` | src/agentic_project_service/routes/copilot.py:97-113 | A token is given exactly if nobody holds the lock, which then lives 360 seconds; fails open when Redis is down; other sessions are untouched. |
| `TurnLock.Redis.Release` | src/agentic_project_service/routes/copilot.py:116-122 | Only the holder's token frees the lock; any other changes nothing. |
| `TurnLock.ForeignLockKept` | src/agentic_project_service/routes/copilot.py:78-122 | In every state, a live lock leaves its holder only by the holder's own step or by expiry. |
| `TurnHistory.ReadExactly` | src/agentic_project_service/routes/copilot.py:318-330 | Rows stored in alternation with every reply on top are read in alternation by every reader, and in the order in which they were stored, if and only if each user row's transaction began behind that of the reply before it; rows of one stamp may come in any order. |
| `TurnHistory.NoRepairNeeded` | src/agentic_project_service/routes/copilot.py:332-359 | Of an alternating history that ends in a user row the trimmed window is the prompt: it alternates and the repair changes nothing. |
| `TurnHistory.RepairNeeded` | src/agentic_project_service/routes/copilot.py:340-359 | Two adjacent user rows among the last forty give the repair something to do. |
| `TurnLock.SerializedStep` | src/agentic_project_service/routes/copilot.py:280-547 | Every steady step keeps: open turns hold the lock, rows are stored in alternation, their parity says whether a reply is owed, and a reply's transaction began behind all rows stored before it. |
| `TurnLock.OrderedStep` | src/agentic_project_service/routes/copilot.py:280-313 | If moreover a turn is let in only when its transaction began behind all stored rows, the rows are stored in the order of their time stamps. |
| `TurnLock.TurnsAreSerialized` | src/agentic_project_service/routes/project_copilot.py:225-439 | In every steady run: at most one worker, rows stored in strict alternation, and a turn that asks while another owes its reply is turned away; and what is read alternates, and is in the order of storing, if and only if each user row's transaction began behind that of the reply before it. |
| `TurnLock.LockComesFree` | src/agentic_project_service/routes/copilot.py:371-376 | In every run in which no turn dies and every release reaches Redis, no turn that is over (refused, failed behind its user row, closed before its worker, done) holds the lock; once all turns are over, the next one that asks gets it. |
| `TurnLock.DeadTurnBlocks` | src/agentic_project_service/routes/copilot.py:75-78 | A turn that dies keeps the lock: others are turned away until its lifetime is over, and then let in. |
| `TurnLock.OverIsFinal` | src/agentic_project_service/routes/copilot.py:371-376 | A refusal, a failure behind the user row, a closed response before the worker, a release or a crash ends its turn for good, and it stores nothing more. |
| `TurnLock.RowsPerTurn` | src/agentic_project_service/routes/copilot.py:304-541 | In every run, however careless: a turn stores at most one user row and behind it at most one reply, and no reply without its user row; one that is not accepted stores nothing. |
| `TurnLock.CarelessStepBreaks` | src/agentic_project_service/routes/copilot.py:280-598 | From every serialized and ordered state, every careless step (expiry, Redis down, a failure or crash behind the user row, a lost reply, an early release, a turn let in that began before the last reply) lets careful steps alone store rows that some reader does not see alternate. |
| `TurnLock.CarefulExactly` | src/agentic_project_service/routes/copilot.py:280-598 | So the condition is exact: after a careful run, a step keeps every careful continuation to one worker and to rows that every reader sees alternate if and only if it is careful. |
| `TurnLock.EarlyTurnDisorders` | src/agentic_project_service/routes/copilot.py:280-313 | From every such state with a worker in flight, steady steps alone store a user row that every reader sees between the last user row and its reply. |
| `TurnLock.EarlyTurnNeedsRepair` | src/agentic_project_service/routes/copilot.py:318-359 | The history read after it does not end in the new message, and the repair changes its prompt. |
| `TurnLock.EarlyTurnHappens` | src/agentic_project_service/routes/copilot.py:280-464 | Such a run from an empty session, read as user, user, assistant. |
| `TurnLock.LosingTheLockDoubles` | src/agentic_project_service/routes/copilot.py:592-598 | From every state in which open turns hold the lock, a step that takes it away from one, or lets a turn in without it, admits a second worker. |
| `TurnLock.ExclusionExactly` | src/agentic_project_service/routes/copilot.py:97-122 | Mutual exclusion alone, exactly: it survives a step if and only if the step takes the lock from no open turn and lets none in without it; turns may die. |
| `TurnLock.HistoryNeedsNoRepair` | src/agentic_project_service/routes/copilot.py:318-359 | After a steady run whose user rows began behind the replies before them, whatever a reader gets that ends in a user row needs no repair, and its window alternates. |
| `IndexedSources.MarkSurvivesUntouched` | src/agentic_project_service/routes/knowledge_bases.py:1734-1779 | After a mark under a fresh id and any foreign statements, a row is still marked if and only if it was marked and nobody wrote it. |
| `IndexedSources.ForeignNeverMarks` | src/agentic_project_service/tasks/indexing.py:348-474 | No statement but a mark or a claim under the id puts a row into the marked state, and a row that a statement does not match stays as it is. |
| `IndexedSources.UnmarkUndoesOnlyOwnMark` | src/agentic_project_service/routes/knowledge_bases.py:1782-1802 | Mark, anything by others, unmark: rows nobody touched are 'indexed' again without owner, every other row is exactly as the others left it. |
| `IndexedSources.MarkLeavesOthersWorking` | src/agentic_project_service/routes/knowledge_bases.py:1769-1779 | A pending row can still be claimed and an owned row still finished after a mark. |
| `IndexedSources.InvStep` | src/agentic_project_service/tasks/indexing.py:2596-2695 | Every step of request, task and others keeps: a row is left marked exactly if the mark matched it, nobody else wrote it since, and no closing write came after. |
| `IndexedSources.LeftMarkedExactly` | src/agentic_project_service/routes/knowledge_bases.py:1734-1802 | In every interleaving, and in either order of mark and dispatch, exactly those rows are left 'indexing' under the id. |
| `IndexedSources.MarkFirstLeavesExactly` | src/agentic_project_service/routes/knowledge_bases.py:1842-1875 | With the mark first, once request and task are at rest, a row is left behind if and only if the mark matched it, nobody else wrote it since, and the task died without its closing write or the request was killed between mark and dispatch; a task that ended leaves none. |
| `IndexedSources.ProperEndRestores` | src/agentic_project_service/routes/knowledge_bases.py:1842-1875 | In every run with the mark first: once the task has ended or the failed dispatch is undone, every row that was indexed and in scope, and that nobody else wrote since, is indexed again, without owner and error and with its attempts. |
| `IndexedSources.RetriedTaskRestores` | src/agentic_project_service/tasks/indexing.py:2671-2678 | A task that is retried starts again and can end properly either way, with its rows restored. |
| `IndexedSources.RaisedDispatchRestores` | src/agentic_project_service/routes/knowledge_bases.py:1859-1875 | A dispatch that raises is undone and rejected whether or not the task was queued. |
| `IndexedSources.MarkAfterDispatchStrands` | src/agentic_project_service/routes/knowledge_bases.py:1842-1858 | With the dispatch first, some run leaves a row behind although the task ended properly. |
| `IndexedSources.DyingTaskStrands` | src/agentic_project_service/tasks/indexing.py:2671-2678 | A task that dies after its retries leaves its rows behind. |
| `IndexedSources.KilledRequestStrands` | src/agentic_project_service/routes/knowledge_bases.py:1859-1870 | A request killed behind its committed mark leaves its rows behind. |
| `IndexedSources.Database.MarkReenriching` | src/agentic_project_service/routes/knowledge_bases.py:1769-1779 | Exactly the 'indexed' rows in scope become 'indexing' under the task, with a fresh dispatch time. |
| `IndexedSources.Database.UnmarkReenriching` | src/agentic_project_service/routes/knowledge_bases.py:1791-1802 | Exactly the rows the task still owns become 'indexed' without owner. |
| `IndexedSources.Database.RunGraphReenrichment` | src/agentic_project_service/routes/knowledge_bases.py:1842-1875 | A dispatch that raises leaves every row as it was but for the dispatch time, the error and the owner it had before, which are lost; otherwise the marked rows belong to the new task. |
| `IndexedSources.Database.ResetForReindex` | src/agentic_project_service/routes/knowledge_bases.py:1701-1713 | The selected rows are pending, unowned, with no attempts; the others are untouched. |
| `IndexedSources.Database.CancelIndexing` | src/agentic_project_service/routes/knowledge_bases.py:1425-1465 | 404, 409 or cancelled, by existence and status; the owner stays recorded and is told to stop unless that raises. |
| `IndexedSources.Database.ClaimIndexedSource` | src/agentic_project_service/tasks/indexing.py:348-372 | A pending row is taken by the task, with one more attempt; any other is left alone and the claim fails. |
| `IndexedSources.Database.FencedMark` | src/agentic_project_service/tasks/indexing.py:430-475 | The owner's result is written, nobody else's. |
| `IndexedSources.Database.HandleStorageError` | src/agentic_project_service/tasks/indexing.py:492-560 | Within the attempts bound the owner's row is pending again and dispatched, at the bound it fails; a superseded task changes and dispatches nothing. |
| `IndexedSources.Database.MarkIndexedSourceFailed` | src/agentic_project_service/tasks/indexing.py:304-324 | The row fails whoever owns it. |
| `IndexedSources.Database.CompleteReenrichment` | src/agentic_project_service/tasks/indexing.py:2618-2650 | Exactly the rows the task still owns are indexed, without owner and error. |
| `IndexedSources.Database.RecoverOrphans` | src/agentic_project_service/tasks/watchdog.py:158-258 | Exactly the rows that are indexing, dispatched more than two minutes ago, under an owner that is not alive: they fail if their attempts are used up and are pending again otherwise, under the old owner's id. |
| `IndexedSources.RowsComeAndGo` | src/agentic_project_service/routes/knowledge_bases.py:1323-1336 | A new row is pending, unowned and untried; a removed one is gone; no other row changes. |
| `ProviderKeys.KeyStore.DeleteIfUnchanged` | src/agentic_project_service/services/ai_provider_keys_resolver.py:116-145 | The row goes exactly if it still holds the ciphertext read before. |
| `ProviderKeys.KeyStore.GetWithDropped` | src/agentic_project_service/services/ai_provider_keys_resolver.py:57-147 | For every schedule of concurrent writes: readable keys are all returned, a provider is dropped exactly if its row could not be decrypted and its delete failed or matched, both are disjoint, and a misconfiguration raises without deleting anything. Other transactions see none of the deletes. |
| `ProviderKeys.BadRowsExact` | src/agentic_project_service/services/ai_provider_keys_resolver.py:86-97 | The rows to heal are exactly the queried rows that raise for their own token. |
| `ProviderKeys.DroppedExactly` | src/agentic_project_service/services/ai_provider_keys_resolver.py:101-147 | After any number of deletes a provider is dropped exactly if its delete is to come, failed, or matched. |
| `ProviderKeys.OnlyDeadRowsDeleted` | src/agentic_project_service/services/ai_provider_keys_resolver.py:110-121 | Whatever others do, a deleted row still held a ciphertext that cannot be decrypted. |
| `ProviderKeys.KeyStore.ResolveForModel` | src/agentic_project_service/services/ai_provider_keys_resolver.py:150-243 | For every schedule of concurrent writes: a readable row of the provider gives the key, else its variable does if it is set and not empty; and resolution raises exactly when neither does and a row stored under the model's provider itself, not under its alias, could not be decrypted and was still unchanged, or undeletable, at its DELETE. |
| `ProviderKeys.NamesOf` | src/agentic_project_service/services/ai_provider_keys_resolver.py:16-38 | Keys of gemini and vertex_ai are stored under google, all others under their own name; five providers have a variable. |
| `ProviderKeys.HealedRowGoneExactly` | src/agentic_project_service/services/ai_provider_keys_resolver.py:105-121 | A dead row whose delete matched is gone after the request if and only if the request commits; otherwise it is there again and still cannot be decrypted. |
| `ProviderKeys.KeyStore.RunRequest` | src/agentic_project_service/routes/agents.py:2062-2070 | A request that answers 400 for a dropped key, or raises, commits none of its deletes: every row it healed is dead and stored afterwards; one that goes on heals exactly if it commits. |
| `ProviderKeys.AliasedDropIsSilent` | src/agentic_project_service/services/ai_provider_keys_resolver.py:150-163 | A dropped alias row therefore does not raise. |
| `RateLimit.KeyInjective` | src/agentic_project_service/routes/internal_docs.py:110-114 | A key names one caller and one minute, whatever characters the caller's name has. |
| `RateLimit.CallersDiffer` | src/agentic_project_service/routes/internal_docs.py:110 | Two headers are one caller only if they are equal, a missing one counting as "_unknown". |
| `RateLimit.Limiter.RateLimited` | src/agentic_project_service/routes/internal_docs.py:108-116 | The request is refused exactly if 120 of its caller or 600 in all were counted before it, and is counted in both tiers either way; live counters keep their expiry, others are untouched. |
| `RateLimit.AlwaysCounted` | src/agentic_project_service/routes/internal_docs.py:62-66 | In every interleaving, for every name, minute and limit, the scripts that return at most the limit number at most the limit times the starts of the counter. |
| `RateLimit.NoResetInsideMinute` | src/agentic_project_service/routes/internal_docs.py:62-66 | The expiry never resets a counter inside its own minute. |
| `RateLimit.RestartsExactly` | src/agentic_project_service/routes/internal_docs.py:62-66 | A script starts its counter over if and only if every earlier start was 60 seconds or more ago. |
| `RateLimit.StartsPerMinute` | src/agentic_project_service/routes/internal_docs.py:62-66 | So a counter is started at most once in each minute from its own on. |
| `RateLimit.PassedPerStart` | src/agentic_project_service/routes/internal_docs.py:108-116 | Without any condition: the requests of a minute that pass are at most 120 per caller, and 600 in all, per start of the counter. |
| `RateLimit.BeyondLimitMeansRestart` | src/agentic_project_service/routes/internal_docs.py:108-116 | Whenever more than 120 requests of a caller and minute have passed, some script ran a minute or more behind an earlier start. |
| `RateLimit.MinuteBound` | src/agentic_project_service/routes/internal_docs.py:47-66 | Of the requests of a minute whose scripts run within k minutes from its beginning, at most 120k per caller and 600k in all pass, for every k; k = 1 is the documented bound. Also for a caller named like the global bucket. |
| `RateLimit.BurstPassesExactly` | src/agentic_project_service/routes/internal_docs.py:62-125 | The limits are met: of requests that come at the same moment, from whatever callers, one passes exactly if fewer than 120 of its caller's and fewer than 600 in all came before it. |
| `RateLimit.WindowBound` | src/agentic_project_service/routes/internal_docs.py:47-66 | Of the requests begun in a half-open 60-second window whose scripts run within k minutes from the beginning of their own minute, at most twice as many pass. |
| `RateLimit.LateScriptsPassUnbounded` | src/agentic_project_service/routes/internal_docs.py:108-116 | For every n some run lets n requests of one caller and minute pass, their scripts held up until the counters expired. |
| `RowSecurity.AccessKeptExactly` | migrations/versions/0031_partition_bm25_item_tables.py:135-227 | Every subject, privilege, column, row and meaning of the policies is decided through the parent as before, if and only if the settings are faithful. |
| `RowSecurity.PrivilegesAlone` | migrations/versions/0031_partition_bm25_item_tables.py:169-179 | What the model takes from the manual: superusers reach every row; without row security, or as its owner, the grants on table or column to a role of the subject or to PUBLIC decide, and the owner alone where nothing was granted. |
| `RowSecurity.RestrictiveHides` | migrations/versions/0031_partition_bm25_item_tables.py:169-179 | One restrictive policy that concerns the subject and fails hides the row, whatever the others say. |
| `RowSecurity.PermissiveNeeded` | migrations/versions/0031_partition_bm25_item_tables.py:169-179 | Without a permissive policy that concerns the subject and passes, the row is hidden. |
| `RowSecurity.PoliciesLetThrough` | migrations/versions/0031_partition_bm25_item_tables.py:169-179 | One permissive policy that passes, and no restrictive one that fails, let it through; new rows are tested by WITH CHECK, or by USING where there is none. |
| `RowSecurity.HeldByParent` | migrations/versions/0031_partition_bm25_item_tables.py:154-163 | What each grantee holds on the parent, PUBLIC and the owner included. |
| `RowSecurity.FaithfulWithoutDefaults` | migrations/versions/0031_partition_bm25_item_tables.py:150-160 | With no default privileges, what is lost is a grant to PUBLIC, a grant on a column only, a forced owner, or an owner without all its rights. |
| `RowSecurity.PoliciesDecideAsBefore` | migrations/versions/0031_partition_bm25_item_tables.py:169-227 | Whoever row security binds on the parent is decided by the same policies. |
| `RowSecurity.NoPoliciesNoRows` | migrations/versions/0031_partition_bm25_item_tables.py:169-179 | Without the policy copy, a subject under row security reads and writes nothing. |
| `Partitioning.Catalog.MirrorSettings` | migrations/versions/0031_partition_bm25_item_tables.py:135-166 | Owner, RLS flag and all table grants to named roles reach the target; PUBLIC, FORCE and grants on columns do not. |
| `Partitioning.Catalog.CopyPolicies` | migrations/versions/0031_partition_bm25_item_tables.py:169-227 | Every policy reaches the target but those whose name it already has; it raises exactly if one of those to copy is correlated with the table in a sub-select. |
| `Partitioning.Catalog.PartitionOne` | migrations/versions/0031_partition_bm25_item_tables.py:246-295 | The whole outcome of a conversion, with each error exactly in its case; on success the default partition has the table's settings and rows and no bm25 index, and is the only partition of the parent; no-op for a missing or converted table. |
| `Partitioning.Catalog.FoldOne` | migrations/versions/0031_partition_bm25_item_tables.py:387-397 | One turn of the fold succeeds exactly if no lock is missing and the detached rows fit, and moves exactly the partition's rows. |
| `Partitioning.FoldTurn` | migrations/versions/0031_partition_bm25_item_tables.py:390-397 | Each of the four statements of a turn keeps the routing invariant. |
| `Partitioning.InsertBeforeDetachFails` | migrations/versions/0031_partition_bm25_item_tables.py:391-396 | Inserting before detaching works only for an empty partition, so the order matters. |
| `Partitioning.FoldTakes` | migrations/versions/0031_partition_bm25_item_tables.py:391-396 | After the detach the default partition takes the rows exactly if it is the one for the rest (or there are none) and the ids are new. |
| `Partitioning.Catalog.UnpartitionOne` | migrations/versions/0031_partition_bm25_item_tables.py:363-402 | For any number of partitions, in any order: ends in one plain table, exactly when the fold is possible, with the settings of the default partition, the rows of all of them and no bm25 index. |
| `Partitioning.PartitionKeepsRouting` | migrations/versions/0031_partition_bm25_item_tables.py:269-282 | Converting a table keeps the routing invariant of the whole catalog. |
| `Partitioning.FoldKeepsRouting` | migrations/versions/0031_partition_bm25_item_tables.py:386-402 | So does folding one. |
| `Partitioning.Catalog.PartitionItemTables` | migrations/versions/0031_partition_bm25_item_tables.py:320-360 | The list is converted table by table; lock_timeout is put back, and stays at ten seconds if a step raised. |
| `Partitioning.Catalog.UnpartitionItemTables` | migrations/versions/0031_partition_bm25_item_tables.py:405-407 | The same for the way back. |
| `Partitioning.Catalog.Upgrade` | migrations/versions/0031_partition_bm25_item_tables.py:410-411 | In its transaction: all tables converted, each into a parent over an unindexed default partition, or nothing changed; lock_timeout as before in both cases. |
| `Partitioning.EveryTableConverts` | migrations/versions/0031_partition_bm25_item_tables.py:320-360 | Every plain table of a list of independent tables is converted so, whatever the others are. |
| `Partitioning.ItemTablesIndependent` | migrations/versions/0031_partition_bm25_item_tables.py:102 | The three item tables are independent, so the list theorems apply to them. |
| `Partitioning.Catalog.Downgrade` | migrations/versions/0031_partition_bm25_item_tables.py:414-415 | In its transaction: all tables folded, or nothing changed; lock_timeout as before in both cases. |
| `PartitionLaws.PartitionKeepsRows` | migrations/versions/0031_partition_bm25_item_tables.py:246-289 | The conversion moves no row: every name but the new partition's ranges over the same rows, and no other relation changes. |
| `PartitionLaws.PartitionKeepsAccess` | migrations/versions/0031_partition_bm25_item_tables.py:246-289 | Access through the table's name is the same if and only if the settings are faithful; then every subject reaches the same rows. |
| `PartitionLaws.PartitionIdempotent` | migrations/versions/0031_partition_bm25_item_tables.py:259-261 | Converting twice is converting once. |
| `PartitionLaws.PartitionsDisjoint` | migrations/versions/0031_partition_bm25_item_tables.py:393-396 | No row is in two partitions, so the union of a fold counts every row once. |
| `PartitionLaws.FoldKeepsRows` | migrations/versions/0031_partition_bm25_item_tables.py:363-402 | A fold keeps every row under the table's name, restores one primary key, and touches nothing else. |
| `PartitionLaws.FoldSucceedsExactly` | migrations/versions/0031_partition_bm25_item_tables.py:380-397 | With the locks granted and a proper default partition, the fold succeeds if and only if no id is stored twice. |
| `PartitionLaws.SharedIdBlocksFold` | migrations/versions/0031_partition_bm25_item_tables.py:53-56 | A well-formed catalog with one id in two partitions has no way back. |
| `PartitionLaws.FoldUndoesPartition` | migrations/versions/0031_partition_bm25_item_tables.py:230-289 | Folding a converted table gives back the original but for its bm25 indexes. |
| `PartitionLaws.UpgradeExactly` | migrations/versions/0031_partition_bm25_item_tables.py:320-360 | A list of independent tables is converted if and only if each of them could be converted on its own. |
| `PartitionLaws.UpgradeKeepsRows` | migrations/versions/0031_partition_bm25_item_tables.py:320-360 | Converting a list moves no row and changes no other relation. |
| `PartitionLaws.FoldCommutes` | migrations/versions/0031_partition_bm25_item_tables.py:335-337 | Folding one table commutes with converting another. |
| `PartitionLaws.DowngradeUndoesUpgrade` | migrations/versions/0031_partition_bm25_item_tables.py:405-415 | Downgrade after upgrade gives back the whole database but for the bm25 indexes of the converted tables. |
| `UsageBackfill.Tables.Upgrade` | migrations/versions/0019_promote_usage_to_typed_cols.py:189-441 | The statements in order, with what is committed wherever an attempt stops; it gets to its end exactly if no call has a malformed duration or step. |
| `UsageBackfill.TotalOfSelected` | migrations/versions/0019_promote_usage_to_typed_cols.py:343-386 | Per run, the INSERT adds exactly what the summary UPDATE counted: calls, errors, durations. |
| `UsageBackfill.SummariesIdempotent` | migrations/versions/0019_promote_usage_to_typed_cols.py:189-234 | The two summary UPDATEs may be repeated. |
| `UsageBackfill.UpgradeAfterCrashes` | migrations/versions/0019_promote_usage_to_typed_cols.py:307-441 | After any interrupted attempts a finished one leaves right summaries, and each run's events multiplied by the attempts that committed the INSERT plus one. |
| `UsageBackfill.SummaryMeans` | migrations/versions/0019_promote_usage_to_typed_cols.py:189-234 | After any interrupted attempts a finished one stores for each run the number of its calls and of those that failed, and zeros for a run without an array. |
| `UsageBackfill.ErrorsCounted` | migrations/versions/0019_promote_usage_to_typed_cols.py:205-208 | The errors of a total are the calls whose result is an error, counted. |
| `UsageBackfill.TotalOfOne` | migrations/versions/0019_promote_usage_to_typed_cols.py:205-208 | One call adds one to the count, one to the errors if it failed, and its duration if that is a number. |
| `UsageBackfill.TotalConcat` | migrations/versions/0019_promote_usage_to_typed_cols.py:205-208 | The totals of two stretches of calls add up. |
| `UsageBackfill.EventsMean` | migrations/versions/0019_promote_usage_to_typed_cols.py:343-386 | The events of a run are its calls in order, each with tool, failure and duration. |
| `UsageBackfill.ConsistentExactly` | migrations/versions/0019_promote_usage_to_typed_cols.py:343-386 | Columns and events agree if and only if the run had no calls or no earlier attempt committed the INSERT. |
| `UsageBackfill.UninterruptedConserves` | migrations/versions/0019_promote_usage_to_typed_cols.py:189-441 | An uninterrupted upgrade conserves every run's count, errors and duration. |
| `UsageBackfill.RerunAfterDrop` | migrations/versions/0019_promote_usage_to_typed_cols.py:431-441 | Behind the column drop, further attempts change nothing. |
| `UsageBackfill.MalformedNumbersStop` | migrations/versions/0019_promote_usage_to_typed_cols.py:189-386 | A malformed duration stops every attempt before its first commit; a malformed step leaves summaries and no events. |
| `LikeSearch.ThreePassesAreOne` | migrations/versions/0023_add_list_sources_excluding_kb.py:74-77 | The three nested replacements are one pass that escapes each special character once. |
| `LikeSearch.BackslashLastExactly` | migrations/versions/0023_add_list_sources_excluding_kb.py:69-71 | Replacing the backslash last gives the same pattern if and only if there is no percent sign or underscore. |
| `LikeSearch.LateSearchExactly` | migrations/versions/0023_add_list_sources_excluding_kb.py:69-71 | With the backslash replaced last, the search is the literal substring test for all names if and only if the search string has neither percent sign nor underscore; otherwise it misses the name equal to it. |
| `LikeSearch.EscapedTokens` | src/agentic_project_service/services/list_params.py:12-18 | The escaped string reads back as its own characters, all literal. |
| `LikeSearch.MatchLiterals` | migrations/versions/0023_add_list_sources_excluding_kb.py:72-78 | Literals followed by a percent sign match exactly the texts that start with them. |
| `LikeSearch.MatchInside` | migrations/versions/0023_add_list_sources_excluding_kb.py:72-78 | Between two percent signs they match exactly the texts that contain them. |
| `LikeSearch.SearchIsLiteral` | migrations/versions/0023_add_list_sources_excluding_kb.py:62-79 | For all names and search strings: the predicate never fails and holds exactly if the search string is a case-folded literal substring. |
| `LikeSearch.Wildcard` | migrations/versions/0023_add_list_sources_excluding_kb.py:72-79 | What the model takes from the manual: underscore matches any one character, percent everything, an escaped one itself, and a lone escape character is an error. |
| `LikeSearch.FoldLength` | migrations/versions/0023_add_list_sources_excluding_kb.py:72-79 | Folding applies the map to every character in its place. |
| `SourceListing.FilterExact` | migrations/versions/0023_add_list_sources_excluding_kb.py:52-80 | The filter keeps exactly the eligible sources, each as often as the table has it. |
| `SourceListing.SortCorrect` | migrations/versions/0023_add_list_sources_excluding_kb.py:98 | The order is by name and id, and a permutation. |
| `SourceListing.OrderedExact` | migrations/versions/0023_add_list_sources_excluding_kb.py:52-100 | The list is sorted and holds exactly the extracted, unlinked sources whose name contains the search string. |
| `SourceListing.PagesCover` | migrations/versions/0023_add_list_sources_excluding_kb.py:99-100 | The pages one behind the other are the list: nothing lost, nothing repeated. |
| `SourceListing.EveryRowCarriesTotal` | migrations/versions/0023_add_list_sources_excluding_kb.py:91-97 | Every row carries the number of all eligible sources. |
| `SourceListing.RouteTotalExactly` | src/agentic_project_service/routes/knowledge_bases.py:2460-2491 | The route's total is right if and only if the page is not past the end of a non-empty list. |
| `SourceListing.RoutePage` | src/agentic_project_service/routes/knowledge_bases.py:2460-2477 | Limits are clamped to 1 to 200 and offsets to 0, and the route's page is that stretch of the list as far as it goes. |
| `SourceListing.RoutePagesCover` | src/agentic_project_service/routes/knowledge_bases.py:2460-2477 | Asked page by page, the route gives the whole list in order. |
| `SystemKeys.SourcesTable.Upgrade` | migrations/versions/0015b_move_system_keys_to_auto_metadata.py:27-44 | Per row: metadata loses exactly the three reserved keys; auto_metadata gets the texts of the two moved ones and an origin URL where it had none, and keeps everything else. |
| `SystemKeys.SourcesTable.Downgrade` | migrations/versions/0015b_move_system_keys_to_auto_metadata.py:47-60 | Per row: the three keys are back in metadata from the texts of auto_metadata, which loses the two moved ones; rows with none of the keys, and all other keys, are untouched. |
| `SystemKeys.UpgradeUnique` | migrations/versions/0015b_move_system_keys_to_auto_metadata.py:27-44 | That meaning leaves no freedom: any row that meets it is the upgraded one, NULL and {} aside. |
| `SystemKeys.UpgradedTexts` | migrations/versions/0015b_move_system_keys_to_auto_metadata.py:27-44 | What each of the keys reads after the upgrade, and that metadata loses exactly three keys. |
| `SystemKeys.UpgradeSays` | migrations/versions/0015b_move_system_keys_to_auto_metadata.py:27-44 | Value by value: strings move as they are, other values as their text, null not at all; a missing origin URL is filled from source_url, with null for null. |
| `SystemKeys.DowngradeSays` | migrations/versions/0015b_move_system_keys_to_auto_metadata.py:47-60 | The way back, value by value. |
| `SystemKeys.RoundTripLookup` | migrations/versions/0015b_move_system_keys_to_auto_metadata.py:27-60 | Every key of metadata after upgrade and downgrade. |
| `SystemKeys.RoundTripExactly` | migrations/versions/0015b_move_system_keys_to_auto_metadata.py:27-60 | The round trip restores metadata if and only if the moved keys are strings (or absent on both sides) and the two URLs agree. |
| `SystemKeys.RoundTripAuto` | migrations/versions/0015b_move_system_keys_to_auto_metadata.py:47-60 | What it leaves in auto_metadata. |
| `SystemKeys.SwappedUpgradeLosesUrl` | migrations/versions/0015b_move_system_keys_to_auto_metadata.py:28-29 | With the two statements swapped, source_url is gone for good. |
| `SystemKeys.UpgradeIdempotent` | migrations/versions/0015b_move_system_keys_to_auto_metadata.py:27-44 | Upgrading twice is upgrading once. |
| `SystemKeys.ReupgradeExactly` | migrations/versions/0015b_move_system_keys_to_auto_metadata.py:27-60 | Downgrade then upgrade changes nothing if and only if the moved values are strings. |

## Left out

- RateLimit.Limiter.RateLimited: a Redis outage, in which the limiter fails open, is not modelled.
- Partitioning.Catalog.MirrorSettings: grant options are not modelled; they decide who may grant, not who may read.
- RowSecurity.PoliciesDecideAsBefore: a policy whose sub-select reads the table itself reads the renamed table afterwards; what an expression is true of is a parameter and taken to stay.
- Partitioning.Catalog.PartitionOne: a lock wait is a set of relations other sessions hold for the whole migration; indexes other than bm25, foreign keys, column defaults, ANALYZE and nested partitions are left out.
- Partitioning.Catalog.UnpartitionOne: the migrating role is taken to bypass row security on the partitions it copies from.
- IndexedSources.MarkFirstLeavesExactly: graph re-enrichment only; the content of the index and the charge of an indexing task are left out.
- UsageBackfill.Tables.Upgrade: the orchestration columns, token and cost columns and index builds of 0019 are left out; the tool-call part and every commit point are there. Durations are unbounded integers, so a sum that overflows an integer column does not raise, and nobody else writes the tables between two attempts.
- CopilotHistory.ProjectPromptExactly: about the list the route builds; what the project copilot's service makes of it is not part of this model.
- AgentRun: the text framing of SSE, JSON fallbacks, metrics and the calls into the LLM library are left out; a frame is an event, and a generator step gives a chunk or ends.
- CopilotHistory, TurnLock: tool execution inside a turn and the workflow snapshots are left out.
- Wall-clock times, logging, authentication, CRUD routes and observability proxies are left out: they have no hard property.
