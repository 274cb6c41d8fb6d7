# Verified model of the SorrowX agent runtime

SorrowX is a runtime for agents that are driven by a language model. This project models the parts
of it whose correctness does not depend on the model, the tools, the network or the clock, and
proves properties of them for all inputs and all runs. Replies of the language model, tool results,
planner replies and the behaviour of other threads are arbitrary inputs.

| Files | Part of the system |
|---|---|
| `MemoryRecords`, `MemoryDisk`, `MemoryProtocol`, `MemoryRules`, `MemoryWitnesses`, `ContextMemory` | The rolling memory of a session: an append-only record log, a state record and a summary stamped with its coverage and a digest; the refresh that folds ten records at a time into the summary; the scheduler that coalesces automatic refreshes |
| `AgentModel`, `AgentTurns`, `AgentLoop`, `OneRunMemory` | The bounded loop over one plan step: signals, overthink restarts, tool errors, subagents, replan requests |
| `AgentNodes`, `AgentTables`, `AgentRuns`, `StaleRun`, `AgentEngine`, `AgentEvents` | Planner, selector and loop as nodes; invariants and termination of whole runs; the two engines (plain loop and graph) |
| `Chunker`, `ChunkRules` | The recursive text splitter of the retrieval service |
| `DirectoryListing`, `FileEdit` | The directory listing under a shared entry budget, and the unique-match file edit |
| `EventHub`, `CliStream` | Event fan-out with bounded queues, and the command line's reader of the event stream |
| `Text`, `Common` | Python's `strip`, `splitlines`, `find`, `split`; small shared definitions |

How the parts are built:

- Code that changes objects in place is a class with methods (`ContextMemory`,
  `MemoryRefreshScheduler`, `OneRunMemory`, `EventHub`, `EntryBudget`), and loops are methods with
  invariants. Each method is proved equal to a specification function or predicate, and lemmas prove
  what the system promises about that specification.
- Concurrency is a state machine (`MemoryProtocol`): one step per critical section or model call, any
  interleaving of any number of steps, with failures and stops in between. The classes of
  `ContextMemory` run the same critical sections; during every model call arbitrary other threads
  may run.
- History variables (`log`, `attempts`, `toolRuns`, `history`, ...) record what happened; no decision
  depends on them.

## Where the code differs from its documentation or from expectation

The model follows the code. Each of these is stated with its exact condition or a concrete input.

- The memory documentation says that coverage only advances. Before a refresh a caller can tell:
  its first commit lowers the valid coverage if and only if the refresh is forced and ten records, or
  its goal, fall short of that coverage (`RefreshLowers`, which also has the condition for a stop
  between the summary write and the state write). `CoverageChange` says the same of every step of
  every run; `OnlyForceLowers` and `CoverageOnlyAdvances` prove monotony without forced refreshes. The
  `UpdateMemory` command, documented as forced, passes `force=False` (src/cli/commands.py:99).
- The documentation limits the whole memory context to 6,000 characters. The code limits the raw
  fallback. The context is longer if and only if there are a valid summary and uncovered records and
  the summary, 21 characters of headings and the clipped entries of the newest ten uncovered records
  add up to more (`ContextOverLimit`); `LongestContext` reaches a disk with the greatest possible
  length, 6,321.
- The documentation lets a worker continue after a success only for a larger pending target. The code
  continues for any pending target; the two differ if and only if the stored target is smaller than
  the one just done (`GoesOnExactly`), and `GoesOnForSmallerTarget` reaches such a state. In runs
  without forced refreshes and torn writes the attempt for it ends at once, without a model call
  (`SmallerTargetIsFree`).
- A process stop loses every reserved target that no worker has popped, and no later run attempts it;
  only a newer record leads to a new attempt (`StopLoses`, `LostForGood`; `StopBeforeStore` reaches such a state).
  Between two points at rest without a stop nothing is lost (`NoLostRefresh`).
- The cap of 27 iterations stops runs that would finish in the 28th (`CapStopsExactly`: if and
  only if every plan had eight pending steps, both replans came from the last pending one and all
  steps got done; only the finishing selection was missing then, by `CapStops`; `CapStopsSlowRun`
  gives such a run).
- A subagent that asks for a new plan is not a failure to its parent: the parent then completes the
  step with the latest earlier result under the same step id, or fails without one
  (`AcceptedAnswer`). An accepted answer is sure to be the subagent's own if and only if the parent has
  no usable result under the step id (`OwnAnswerExactly`). In the run of `StaleResultAccepted` the only
  step of a new plan is done with the result of a step of the old one.
- With repeated step ids in one plan, the step events are about the first step that has the id: they
  are about the step worked on if and only if no earlier step has its id, and otherwise an old result is
  reported as just finished (`StepEvents`).
- The flags of a listing are not always right: below a directory whose direct entries are cut, a listed
  directory carries no flag although its children are missing. All flags of a listing are right if and
  only if no such directory is met when the limit is spent on the tree (`FlagsExact`);
  `UnflaggedDirectory` is a tree with distinct names, in display order, that is listed with a wrong flag
  under the default limit. Still some directory above a missing entry is always flagged
  (`MissingIsFlagged`).
- The splitter drops a blank piece together with the punctuation mark behind it. The number of
  visible characters lost is exactly the number of such pieces met at the splits really made, so
  nothing is lost if and only if there is none (`MarksLostExactly`; `MarksKept` is the condition for
  one split; `LosesMark` is an input that loses one).
- The reported old end line of an edit counts every line break of `str.splitlines`, the start line
  counts "\n" only; they agree if and only if the text has no other line break before its last
  character (`EndLineExact`; `WrongEndLine` is a text for which they do not).
- An edited file is read with its newlines translated and written back as it stands. So splicing the
  old text back after an edit restores the file if and only if it had no "\r" (`FileRestored`).

## Model

The first 63 rows are the main results. The next 97 are lemmas: those that determine a single
operation by what it does, and those the main results rest on. The last 41 are the methods that
carry out the code's loops and updates, each proved against its specification.

| member | source | states |
|---|---|---|
| `MemoryProtocol.ValidSummaryProvenance` | src/core/llm/Agent/memory.py:371-429 | In every run, under any interleaving and with stops anywhere, a summary accepted as valid with coverage n is the read-back text of a chain of model calls that were really made, whose batches of one to ten records put one after the other are exactly the first n records |
| `MemoryProtocol.CommitNeverRefused` | src/core/llm/Agent/memory.py:396-408 | The error "memory records changed before summary commit" is unreachable, and the log still holds the summarized batch in the same place at the commit |
| `MemoryProtocol.CoverageChange` | src/core/llm/Agent/memory.py:379-426 | In every run a step lowers the valid coverage if and only if it is the first commit of a forced refresh whose goal or first ten records fall short of it, or a commit that stops between its two writes (unless that is the first of a forced refresh and ends exactly at the valid coverage); every step but a commit leaves it unchanged |
| `MemoryProtocol.RefreshLowers` | src/core/llm/Agent/memory.py:371-426 | Known before a refresh that has work: its first commit lowers the valid coverage if and only if it is forced and min(10, goal) is below that coverage; with a stop between the writes if and only if there is a valid coverage and it is not a forced refresh with min(10, goal) equal to it |
| `MemoryProtocol.OnlyForceLowers` | src/core/llm/Agent/memory.py:384-394 | In a run without forced refreshes no completed commit lowers the valid coverage, even after torn writes |
| `MemoryProtocol.CoverageOnlyAdvances` | src/core/llm/Agent/memory.py:371-429 | Without forced refreshes and without stops between the two writes the valid coverage never decreases over any run, never exceeds the number of records, and the recorded coverage is always valid |
| `MemoryProtocol.SchedulerSafety` | src/core/llm/Agent/memory.py:589-655 | In every run: at most one worker; a stored target has a live worker; no worker gets the default target 0; each reserved number is attempted at most once, so attempts never outnumber records |
| `MemoryProtocol.NoLostRefresh` | src/core/llm/Agent/memory.py:598-655 | From any point of a run at which no worker runs and no schedule call is in flight (the start, a process stop, any other) to any later one without a process stop in between: if a target was reserved meanwhile, the greatest one was itself attempted and returned or failed on record; without forced refreshes and torn writes a returned one is covered |
| `MemoryProtocol.LostForGood` | src/core/llm/Agent/memory.py:331-349 | A reserved target that is neither attempted, in flight nor stored, as after a process stop, is never attempted in any run that follows |
| `MemoryProtocol.GoesOnExactly` | src/core/llm/Agent/memory.py:654-658 | After a success the worker goes on if and only if a target is stored; this differs from going on for a larger one only if and only if the stored target is smaller than the one done, and in calm runs a smaller one is covered |
| `MemoryProtocol.FailureEnds` | src/core/llm/Agent/memory.py:645-653 | After a failure the worker goes on if and only if a target beyond the failed one is stored, and otherwise nothing stays stored |
| `MemoryProtocol.SmallerTargetIsFree` | src/core/llm/Agent/memory.py:654-658 | In a run without forced refreshes and torn writes the later attempt for a smaller stored target makes no model call and changes nothing on disk |
| `MemoryRules.ReserveExactly` | src/core/llm/Agent/memory.py:327-349 | In every run a reservation puts exactly the number of records in flight if the newest record is neither covered nor was reserved before, and otherwise changes nothing; a recorded failure adds nothing to that |
| `MemoryRules.NewRecordIsReserved` | src/core/llm/Agent/memory.py:327-349 | Right after a run was remembered, whatever was covered, attempted or failed before, its number is the one reserved |
| `MemoryRules.NoSecondReservation` | src/core/llm/Agent/memory.py:327-349 | Once a number was reserved, no reservation changes anything until there is a new record |
| `MemoryRules.ManualRefreshCovers` | src/core/llm/Agent/memory.py:371-429 | A refresh called by hand, with any activity of other threads, ends with all records covered that there were at its begin, or with its target if that is one of them |
| `MemoryProtocol.Continuity` | src/core/llm/Agent/memory.py:296-310 | A remembered record stays where it was put with all its fields, and every later context shows the trusted summary covering it or, while fewer than four records are newer, "用户：" with its question and "助手：" with its answer, each stripped and limited to its first 600 characters |
| `MemoryDisk.ContextOverLimit` | src/core/llm/Agent/memory.py:296-310 | The context exceeds 6,000 characters if and only if a valid summary, 21 characters of headings and the clipped newest ten uncovered entries together do, and there are such entries; it never exceeds 6,321 |
| `MemoryDisk.ReadBackExact` | src/core/llm/Agent/memory.py:537-559 | A stored summary is read back as it was written if and only if it has no line break but "\n" and no white space at an end |
| `MemoryWitnesses.LongestContext` | src/core/llm/Agent/memory.py:296-310 | A reachable disk whose context has 6,321 characters |
| `MemoryWitnesses.GoesOnForSmallerTarget` | src/core/llm/Agent/memory.py:654-658 | A reachable state in which a worker goes on after a success for a stored target below the one just done |
| `MemoryWitnesses.StopBeforeStore` | src/core/llm/Agent/memory.py:607-619 | A reachable state in which a stop has lost a reserved target and no new one can be reserved |
| `ContextMemoryModel.ContextMemory.RefreshRollingSummary` | src/core/llm/Agent/memory.py:371-429 | With arbitrary replies and arbitrary activity of other threads during every model call: an updated refresh covers all records there were, or its target if that is one of them; an unchanged one finds that much covered; the batches have ten records each but the last and are exactly the records from the start on, up to the end or the failed call; the valid coverage is what was committed; the disk stays accounted for by the calls made |
| `MemoryRecords.FormatRecordFallback` | src/core/llm/Agent/memory.py:692-706 | The text is the longest window of the newest at most ten entries, in order, within 6,000 characters; only its oldest entry may be cut, and then the text has exactly 6,000 characters |
| `AgentEngine.GraphEqualsLegacy` | src/core/llm/Agent/AgentEngine.py:189-371 | For all node behaviours the graph emits the same events in the same order and ends the same way as the loop, given 1 + 5 * 27 + 1 supersteps; the limit of 178 exceeds that and never fires |
| `AgentEvents.AnswerExactly` | src/core/llm/Agent/AgentEngine.py:69-78 | Both engines answer with a text if and only if it is what the summarizer made of a state reached within 27 iterations in which the selector finished; if the summarizer raised, so does the run |
| `AgentEvents.OutcomeExactly` | src/core/llm/Agent/AgentEngine.py:54-108 | Every outcome of a run, exactly: which node returned a failed state or raised, or what was summarized, in terms of what the nodes return; the iteration limit exactly if the run is still going |
| `AgentEvents.EventsInOrder` | src/core/llm/Agent/AgentEngine.py:54-147 | For all nodes the events of a run are in order: each node bracketed by its start and end, steps announced between selection and work and finished after it, nothing after a failed node, one reported exactly if the run ends by it |
| `AgentEvents.LogsOnce` | src/core/llm/Agent/AgentEngine.py:118-134 | The log events of the first n iterations are exactly the items added to the state's log, each once and in order |
| `AgentRuns.WholeRun` | src/core/llm/Agent/AgentEngine.py:54-108 | At every iteration of every run the plan is a finished prefix and a pending suffix, the results end with exactly the (id, task, result) triples of the prefix, the revision is the number of planner passes; no run takes more than 28 iterations |
| `AgentRuns.CapStopsExactly` | src/core/llm/Agent/AgentEngine.py:20-22 | The cap stops a run if and only if it gets, by iterations of the slowest kind alone, to a state in which all steps are done and both replans are spent |
| `AgentRuns.CapStops` | src/core/llm/Agent/AgentEngine.py:20-22 | When the cap of 27 stops a run, all steps are done, both replans are spent, three plans were made, one more iteration would have answered; every plan had eight pending steps and every replan came from the last pending one |
| `AgentRuns.CapStopsSlowRun` | src/core/llm/Agent/AgentEngine.py:20-22 | A concrete run without any failure that the cap stops |
| `AgentRuns.NoFailedToolAgain` | src/core/llm/Agent/nodes/agent_loop.py:311-320 | In every run from the initial state, a tool that returned an error to the agent is never executed again at either depth, and one that failed inside a subagent never again by that subagent, also in the iteration that ends the run |
| `AgentRuns.StepEvents` | src/core/llm/Agent/AgentEngine.py:80-106 | The events around the work on a step are about that step if and only if no earlier step of the plan has its id; otherwise they announce the first step with that id and report its old result as finished |
| `AgentLoop.DecisionBound` | src/core/llm/Agent/nodes/agent_loop.py:26-250 | The loop over a step terminates after at most 7 * (2 + max(0, 1 - c)) model decisions including its subagent, c being the overthink count on entry |
| `AgentTurns.AnswerIsDecided` | src/core/llm/Agent/nodes/agent_loop.py:204-216 | A step the agent finishes itself ends with the answer of the decision read last, which is a finish without a signal |
| `AgentLoop.LoopKeeps` | src/core/llm/Agent/nodes/agent_loop.py:26-250 | The loop ends with a non-blank answer recorded exactly once for its step, or records nothing; a replan is asked for only while one is left; failed tools stay failed |
| `AgentLoop.AcceptedAnswer` | src/core/llm/Agent/nodes/agent_loop.py:154-202 | An accepted subagent answer is the one the subagent finished with, or, if it stopped for a replan, the parent's own latest result under the step id; without one the step fails |
| `AgentLoop.OwnAnswerExactly` | src/core/llm/Agent/nodes/agent_loop.py:154-202 | Every accepted answer is the subagent's own, whatever the model and the tools answer, if and only if the parent has no usable result under the step id |
| `StaleRun.StaleResultAccepted` | src/core/llm/Agent/nodes/agent_loop.py:154-202 | A run from the initial state in which a step of a new plan is completed with the result of a step of the old plan under the same id |
| `RunMemory.RunLoop` | src/core/llm/Agent/nodes/agent_loop.py:26-250 | The mutable loop with its turn counter, restarts and recursion equals the specified loop, so everything proved about that holds of it |
| `Chunker.ChunksConserve` | src/core/llm/rag_service.py:539-610 | Without white space and the six marks, the chunks joined equal the input; without white space only, they are a subsequence of it |
| `Chunker.MarksLostExactly` | src/core/llm/rag_service.py:539-575 | The visible characters lost by the whole splitter are exactly the blank pieces before the last one at the splits at a mark along the recursion taken; all are kept if and only if there is none |
| `Chunker.LosesMark` | src/core/llm/rag_service.py:564-575 | An input that loses a mark |
| `Chunker.FinalChunks` | src/core/llm/rag_service.py:260-264 | Every final chunk is non-blank, at most chunk_size long, and is its base chunk behind a suffix of the preceding base chunk of exactly min(chunk_overlap, room, all there is) characters |
| `Chunker.MergeMaximal` | src/core/llm/rag_service.py:577-603 | No undersized chunk still fits with its successor, nor an undersized last one with its predecessor |
| `Chunker.MergeIdempotent` | src/core/llm/rag_service.py:577-603 | Merging the result again changes nothing |
| `ChunkRules.MergeGroups` | src/core/llm/rag_service.py:577-597 | Merging puts parts together greedily from left to right: a group was undersized before its last part came, and is not undersized or the next part does not fit |
| `ChunkRules.SplitsAtFirst` | src/core/llm/rag_service.py:539-561 | A text is split at the first separator, in the order of the list, that splits it |
| `Chunker.RecursiveMaximal` | src/core/llm/rag_service.py:539-561 | What the splitter returns is maximal unless the text is unsplittable by the remaining separators and is cut into slices |
| `DirectoryListing.ListingExact` | src/core/llm/Agent/tools/operation_tools.py:430-460 | At most the limit of entries in total; when the direct entries are complete every directory shown is faithful; tree_truncated exactly when an included descendant is missing |
| `DirectoryListing.FlagsExact` | src/core/llm/Agent/tools/operation_tools.py:430-529 | Every flag shown at every depth says exactly whether an included descendant is missing if and only if, going through the tree with what is left of the limit, no expanded directory has more included children than fit while one that fits has included children itself |
| `DirectoryListing.UnflaggedDirectory` | src/core/llm/Agent/tools/operation_tools.py:430-493 | A tree with distinct names in display order whose listing with the default limit shows a directory without flag although its file is missing |
| `DirectoryListing.MissingIsFlagged` | src/core/llm/Agent/tools/operation_tools.py:430-529 | If an included child is not shown, its directory or one above it is flagged |
| `FileEdit.ModifyExistingFile` | src/core/llm/Agent/tools/operation_tools.py:896-956 | When an edit is accepted and with which result, in both directions, and which of the four errors is reported otherwise |
| `FileEdit.ScanUnique` | src/core/llm/Agent/tools/operation_tools.py:921-926 | Exactly one position is found if and only if some occurrence is overlapped by all others from behind; none if and only if there is no occurrence |
| `FileEdit.EditIsReversible` | src/core/llm/Agent/tools/operation_tools.py:928-939 | In the text as it was read, everything before and after stays, the new content stands at the index, and splicing the old content back restores that text |
| `FileEdit.FileRestored` | src/core/llm/Agent/tools/operation_tools.py:959-961 | Splicing the old text back restores the file itself if and only if it has no "\r" |
| `FileEdit.EndLineExact` | src/core/llm/Agent/tools/operation_tools.py:1001-1015 | The reported old end line is the line of the last replaced character if and only if the text has no bare line break before it, and never less |
| `EventHubModel.EventHub.Publish` | src/core/daemon/events.py:137-158 | A registered client that wants the event gets it once at the end of its queue; it is removed, with all its subscriptions, exactly if its queue is bounded and full; nothing else changes; sent plus queued events stay equal to all events owed |
| `CliStream.RunAgentStream` | src/cli/commands.py:215-269 | The reader handles exactly its run's events in arrival order up to the first run.finished, wherever the replies fall; it exits with 0 exactly if that event's status is "finished", else with 1; without the expected replies it raises and handles nothing |
| `CliStream.EndToEnd` | src/cli/commands.py:215-269 | If the client wanted every event of the run and its stream brought an initial part of what it was owed, an exit means that exactly the run's published events through the first run.finished were handled, with its code; before that, an initial part of them |
| `AgentTurns.RefusedTurn` | src/core/llm/Agent/nodes/agent_loop.py:295-334 | A reply that cannot be parsed or does not pass the checks fails the step for the first check it does not meet, with nothing counted and no tool called |
| `AgentTurns.SignalTurn` | src/core/llm/Agent/nodes/agent_loop.py:61-86 | What each signal does to the whole rest of the loop: replan while one is left, start over on the first overthink, fail otherwise |
| `AgentTurns.MissingTurn` | src/core/llm/Agent/nodes/agent_loop.py:88-100 | The third turn in a row without a finding asks for a new step while one is left, whatever else was decided |
| `AgentTurns.PlainTurn` | src/core/llm/Agent/nodes/agent_loop.py:102-118 | A thought goes on, the third in a row is an overthink; a finish ends the step with its own answer, recorded for it, unless that is blank; a fail fails |
| `AgentTurns.ToolTurn` | src/core/llm/Agent/nodes/agent_loop.py:120-146 | A call without error goes on; with an error that is not recoverable it goes on with the tool barred; a tool that raises fails the step; below the top level a recoverable error does too |
| `AgentTurns.SubagentTurn` | src/core/llm/Agent/nodes/agent_loop.py:147-202 | A recoverable error at the top level: what the subagent starts with, and what the step ends with for every end of the subagent |
| `EventHubModel.TopicMeans` | src/core/daemon/events.py:201-206 | A topic that ends with a star matches exactly the types it is a prefix of, any other exactly the type that is the same |
| `EventHubModel.WantsMeans` | src/core/daemon/events.py:192-198 | What a subscription matches: typed events, of its run if it names one, of which some topic matches the type |
| `DirectoryListing.ChildShown` | src/core/llm/Agent/tools/operation_tools.py:496-529 | One entry by the numbers of its included files and directories and what is left of the limit: bare, collapsed and flagged, empty, or as many included children as fit |
| `FileEdit.NewLinesExact` | src/core/llm/Agent/tools/operation_tools.py:928-956 | The lines reported for new content are those it has in the updated text, under the same condition; a deletion ends one line before it starts |
| `MemoryDisk.ContextLayout` | src/core/llm/Agent/memory.py:296-310 | The whole context word by word: fallback alone, summary alone, or summary and fallback under their headings |
| `MemoryRecords.NewestInOrder` | src/core/llm/Agent/memory.py:692-706 | Each of the newest four entries is followed by a blank line and the next one, and the newest ends the text |
| `MemoryProtocol.OutcomeMeaning` | src/core/llm/Agent/memory.py:629-655 | At the moment an attempt returns, the valid coverage has reached its target; at the moment its failure is recorded, the failure position is its target |
| `AgentRuns.IterationKeeps` | src/core/llm/Agent/AgentEngine.py:54-108 | Every iteration that goes on preserves the run invariant and strictly lowers 9 * (replans left) + (9 or the pending steps) + 1 |
| `FileEdit.WrongEndLine` | src/core/llm/Agent/tools/operation_tools.py:1005-1015 | A text whose reported end line is 2 although its last character is in line 1 |
| `MemoryProtocol.CoverageCommit` | src/core/llm/Agent/memory.py:404-426 | The valid coverage after a commit: the new coverage, or after a stop between the writes the recorded one if the new stamp equals it and otherwise zero |
| `MemoryRules.ManualBegin` | src/core/llm/Agent/memory.py:379-394 | A refresh called by hand either starts for that goal, or changes nothing because there are no records or, not being forced, it finds that much covered |
| `MemoryRules.IdleMeansCovered` | src/core/llm/Agent/memory.py:402-426 | The status "idle" means that all records are covered, unless a run was remembered with a stop before its state write |
| `MemoryRules.SectionsLeave` | src/core/llm/Agent/memory.py:240-369 | Marking changes only the status, a recorded failure also its position; a remembered run leaves the status "dirty" |
| `MemoryRules.MarkShows` | src/core/llm/Agent/memory.py:351-357 | A worker marks the session as being refreshed before it begins |
| `MemoryDisk.GoalAims` | src/core/llm/Agent/memory.py:387-387 | Without a target, or with 0, a refresh aims at all records; else at its target, or at all records if that is beyond them |
| `MemoryDisk.TrustExactly` | src/core/llm/Agent/memory.py:561-573 | On any disk a summary is trusted if and only if it is not blank and its stamp names the recorded coverage and the digest of exactly that many records |
| `MemoryDisk.NormalizedAs` | src/core/llm/Agent/memory.py:739-742 | A usable summary is the reply without white space around it, limited to 300 characters |
| `MemoryRecords.EntryExchange` | src/core/llm/Agent/memory.py:696-698 | An entry shows the question and then the answer, each stripped and limited to 600 characters |
| `MemoryRecords.ShownVerbatim` | src/core/llm/Agent/memory.py:696-697 | A short field without white space around it is shown as it is |
| `MemoryProtocol.SafeStep` | src/core/llm/Agent/memory.py:576-655 | Every step of every thread preserves the joint invariant of disk, summary lock, worker threads and targets |
| `MemoryProtocol.TargetsStep` | src/core/llm/Agent/memory.py:327-349 | Every reserved number is in exactly one place (in flight, stored, or popped), is in range, and was not attempted before |
| `MemoryProtocol.LostEndFailed` | src/core/llm/Agent/memory.py:637-650 | A failing worker never drops the greatest target reserved since a given point |
| `MemoryProtocol.CoveredTargetIsFree` | src/core/llm/Agent/memory.py:390-394 | An attempt for a covered target returns at once, with no model call and no change on disk |
| `MemoryDisk.ValidIffAgreed` | src/core/llm/Agent/memory.py:561-573 | On a disk the protocol can reach, a summary is valid exactly when the state record and the stamp agree on the coverage |
| `MemoryDisk.ChainPartitions` | src/core/llm/Agent/memory.py:396-399 | The batches of a summary chain concatenate to exactly the prefix it stands for |
| `MemoryDisk.RememberKeeps` | src/core/llm/Agent/memory.py:240-271 | Remembering appends at most one record with the next sequence number and changes neither the coverage nor its validity, even if it stops before the state write |
| `MemoryDisk.BeginKeeps` | src/core/llm/Agent/memory.py:379-394 | A refresh starts from the valid coverage, or from zero if forced, and reports "unchanged" only if the valid coverage reaches its goal |
| `MemoryDisk.SummarizeKeeps` | src/core/llm/Agent/memory.py:396-401 | A usable model reply carries the provenance of the running summary one batch further |
| `MemoryDisk.CommitKeeps` | src/core/llm/Agent/memory.py:402-426 | A commit keeps the disk accounted for even between its two writes, and afterwards the summary is valid for exactly the batch end |
| `MemoryDisk.ReadBackNonEmpty` | src/core/llm/Agent/memory.py:537-559 | A stored summary never becomes empty by being written, split into lines, joined and normalized again |
| `MemoryDisk.ContextShows` | src/core/llm/Agent/memory.py:296-310 | A loaded context contains the trusted summary if there is one, and in full every uncovered record with fewer than four newer ones |
| `MemoryRecords.NewestInFull` | src/core/llm/Agent/memory.py:692-706 | The newest four entries, or all if there are fewer, appear uncut |
| `MemoryRecords.FallbackBounded` | src/core/llm/Agent/memory.py:692-706 | At most 6,000 characters, and not empty if there is a record |
| `MemoryRecords.FallbackUnique` | src/core/llm/Agent/memory.py:692-706 | The specification of the fallback determines the text |
| `MemoryRecords.FallbackLength` | src/core/llm/Agent/memory.py:692-706 | The fallback is as long as its newest ten clipped entries together, or has 5,998 to 6,000 characters if they are longer than 6,000 |
| `ContextMemoryModel.OtherKeeps` | src/core/llm/Agent/memory.py:240-369 | Whatever another thread does under the record lock while a refresh waits for the model, the invariants hold and the valid coverage is unchanged |
| `AgentEngine.GraphFollowsLoop` | src/core/llm/Agent/AgentEngine.py:281-364 | From the gate on, the graph does what the loop does with the iterations left; five supersteps per iteration and one more are enough |
| `AgentEngine.GraphStep` | src/core/llm/Agent/AgentEngine.py:307-360 | An iteration that does not plan takes four supersteps behind the gate and has the same events and result as the loop's |
| `AgentEvents.NodeEmits` | src/core/llm/Agent/AgentEngine.py:110-143 | Everything a node emits is passed on once and in order, also when it raises; its end reports its status and phase |
| `AgentTables.RunLogs` | src/core/llm/Agent/AgentEngine.py:118-134 | The log events of a run of the agent are exactly the items in its state's log |
| `AgentTables.NodesLogOnce` | src/core/llm/Agent/nodes/planner.py:68-77 | Every node of the agent appends exactly one log item, under its own name |
| `AgentTables.PlanRefuses` | src/core/llm/Agent/nodes/planner.py:21-90 | When a planner pass fails and with which error, both directions; nothing else changes then |
| `AgentTables.PlanTable` | src/core/llm/Agent/nodes/planner.py:35-88 | A pass that does not fail: the kept prefix, each new step with its id and task, the cursor, revision, phase and log |
| `AgentTables.ReplanStarts` | src/core/llm/Agent/nodes/planner.py:177-188 | Where a step replan starts: at the cursor, else at the first step with the current id, else nowhere |
| `AgentTables.ChangedSteps` | src/core/llm/Agent/nodes/planner.py:167-174 | The changed steps of an update are the ids of the plan's steps in order |
| `AgentTables.DecimalValue` | src/core/llm/Agent/nodes/planner.py:230-234 | The number in a made-up step name is the decimal numeral of the index |
| `AgentTables.StepNamesDiffer` | src/core/llm/Agent/nodes/planner.py:230-234 | Made-up names are distinct |
| `AgentTables.SelectTable` | src/core/llm/Agent/nodes/select_next_step.py:5-48 | The selector's update in full, with and without a pending step |
| `AgentTables.CursorTable` | src/core/llm/Agent/nodes/agent_loop.py:253-271 | A cursor that does not point at a step of the plan with the current id fails the node at once |
| `AgentTables.ReactTable` | src/core/llm/Agent/nodes/agent_loop.py:26-250 | The loop node's update in full, for every way the loop can end |
| `AgentRuns.PlanKeeps` | src/core/llm/Agent/nodes/planner.py:21-90 | A planner pass that does not fail keeps exactly the finished prefix on a step replan and starts afresh otherwise, adds one to eight pending steps, loses no result, counts its revision and logs the changed steps |
| `AgentRuns.NewPlan` | src/core/llm/Agent/nodes/planner.py:150-188 | The plan of a pass is the kept prefix followed by one pending step per new one |
| `AgentRuns.SelectKeeps` | src/core/llm/Agent/nodes/select_next_step.py:5-48 | The selector points at the first step behind the finished prefix, and finishes exactly when no step is pending |
| `AgentRuns.ReactKeeps` | src/core/llm/Agent/nodes/agent_loop.py:205-227 | A step that does not fail becomes done with its result recorded last, or a replan is due with plan and results unchanged |
| `AgentRuns.LimitMeans` | src/core/llm/Agent/AgentEngine.py:54-108 | The engine reports the iteration limit exactly when the run is still going after that many iterations |
| `AgentRuns.ReactTools` | src/core/llm/Agent/nodes/agent_loop.py:541-556 | The same for one iteration, also for one that fails |
| `AgentLoop.LoopReads` | src/core/llm/Agent/nodes/agent_loop.py:36-118 | From any turn on, the decisions still read are bounded by the rest of the pass, one pass per allowed restart and one pass of a subagent, the restart being shared |
| `AgentLoop.LoopRuns` | src/core/llm/Agent/nodes/agent_loop.py:130-202 | No loop executes a tool again that returned an error to it or was on record as failed, and a subagent avoids its parent's failures |
| `AgentLoop.OwnAnswer` | src/core/llm/Agent/nodes/agent_loop.py:559-566 | In particular, if the step id is not among the inherited results, an accepted answer is exactly the one the subagent finished with |
| `AgentLoop.StaleAnswer` | src/core/llm/Agent/nodes/agent_loop.py:541-566 | A concrete family of inputs on which a stale result is accepted |
| `AgentLoop.AnswerFromResults` | src/core/llm/Agent/nodes/agent_loop.py:559-566 | The answer looked up is a non-blank result recorded under the step id, and there is none exactly when no such result exists |
| `AgentTurns.LatestAnswer` | src/core/llm/Agent/nodes/agent_loop.py:559-566 | The answer looked up is the last usable result under the step id |
| `AgentTurns.NoEighthTurn` | src/core/llm/Agent/nodes/agent_loop.py:232-234 | The eighth turn of a pass is not taken |
| `AgentModel.Decide` | src/core/llm/Agent/nodes/agent_loop.py:299-322 | An accepted decision names a tool exactly if it is a tool call, and then a known tool that has not failed |
| `AgentModel.PlayTurn` | src/core/llm/Agent/nodes/agent_loop.py:36-202 | A restart uses up the step's allowance, nothing else changes it, and only a top-level loop hands over to a subagent |
| `Chunker.MarksKept` | src/core/llm/rag_service.py:564-575 | One split at a mark keeps all visible characters if and only if no piece before the last is blank |
| `Chunker.RecursiveFits` | src/core/llm/rag_service.py:539-561 | Every base chunk is non-empty, stripped and within chunk_size |
| `Chunker.FixedConserves` | src/core/llm/rag_service.py:605-610 | Cutting into slices loses white space only |
| `ChunkRules.SplitExact` | src/core/llm/rag_service.py:565-565 | Pieces have no separator in them, and joined with it they are the text |
| `ChunkRules.PartsExact` | src/core/llm/rag_service.py:564-575 | A blank piece goes with the separator behind it; the others keep theirs at their end |
| `ChunkRules.FixedExact` | src/core/llm/rag_service.py:605-610 | Slices have exactly the chunk size, white space around each removed, blank ones left out |
| `ChunkRules.MergeEnds` | src/core/llm/rag_service.py:598-603 | At the end an undersized last chunk goes to its predecessor if it fits |
| `ChunkRules.CollapseExact` | src/core/llm/rag_service.py:262-262 | Every maximal run of three or more line breaks becomes one of two, shorter ones stay |
| `ChunkRules.NormalizedExact` | src/core/llm/rag_service.py:261-262 | The text that is split has no three line breaks in a row; a text already normal is taken as it is |
| `Text.NewlineMeans` | src/core/llm/rag_service.py:261-261 | A carriage return with or without a line feed becomes one line feed, everything else stays |
| `ChunkRules.LimitsFit` | src/core/llm/rag_service.py:44-46 | The overlap stays below the chunk size, the minimum within it, and values that do so are taken as they are |
| `DirectoryListing.ListChildExact` | src/core/llm/Agent/tools/operation_tools.py:496-529 | A directory's flag is set exactly when a descendant is missing, as long as its direct children are all shown; the budget used is the number of entries shown |
| `DirectoryListing.RootShown` | src/core/llm/Agent/tools/operation_tools.py:442-454 | The requested directory is never collapsed: it shows as many children as the limit allows |
| `DirectoryListing.IncludedMeans` | src/core/llm/Agent/tools/operation_tools.py:605-611 | Which paths are included, by their names |
| `DirectoryListing.IncludedInOrder` | src/core/llm/Agent/tools/operation_tools.py:532-543 | Included children are listed in the order in which they are given |
| `DirectoryListing.NothingHiddenShown` | src/core/llm/Agent/tools/operation_tools.py:605-611 | No hidden path except known configuration files and no cache directory is shown at any depth |
| `DirectoryListing.IncludedExact` | src/core/llm/Agent/tools/operation_tools.py:532-543 | A child is listed exactly if it is a child of the directory that is to be included |
| `FileEdit.LinesAndNewlines` | src/core/llm/Agent/tools/operation_tools.py:1012-1015 | splitlines counts one more line than there are "\n" before the last character exactly if there is no bare line break |
| `FileEdit.LineCounted` | src/core/llm/Agent/tools/operation_tools.py:1001-1002 | Lines are counted from 1 on, and every "\n" begins a new one |
| `FileEdit.SizeIsBytes` | src/core/llm/Agent/tools/operation_tools.py:973-974 | The size of a content is the number of its bytes in UTF-8 |
| `FileEdit.Utf8Exact` | src/core/llm/Agent/tools/operation_tools.py:973-974 | The bytes of a character, as many as counted, give the character back |
| `EventHubModel.FannedDelivers` | src/core/daemon/events.py:137-158 | After a fan-out every remaining client's sent events followed by its queue are, in order and without duplicates, all events published since its registration that matched one of its subscriptions then, within the queue bound |
| `EventHubModel.WantsAny` | src/core/daemon/events.py:137-158 | A client wants what any of its subscriptions wants |
| `EventHubModel.SubscriptionsStay` | src/core/daemon/events.py:109-166 | Which subscriptions stay when clients go or one is cancelled, in order |
| `CliStream.StarWantsAll` | src/core/daemon/events.py:192-206 | The subscription to all topics and any run matches every event that has a type |
| `CliStream.ExitMeans` | src/cli/commands.py:295-306 | An exit comes from the event handled last: it finishes the run, and its status gives the code |
| `ContextMemoryModel.ContextMemory.RememberRun` | src/core/llm/Agent/memory.py:240-271 | The new state is the specified one: nothing for a blank question, else one record appended and the state record marked dirty |
| `ContextMemoryModel.ContextMemory.ReserveAutoRefresh` | src/core/llm/Agent/memory.py:327-349 | Reserves the newest number unless it is covered, was attempted, or is not beyond the last failure; writes the state record only then |
| `ContextMemoryModel.ContextMemory.MarkAsRefreshing` | src/core/llm/Agent/memory.py:351-357 | Only the status of the state record changes, and only if the target exists |
| `ContextMemoryModel.ContextMemory.MarkAsFailed` | src/core/llm/Agent/memory.py:359-369 | Records the failure at the target, cut down to the number of records |
| `ContextMemoryModel.ContextMemory.LoadValidSummary` | src/core/llm/Agent/memory.py:286-294 | Returns a non-empty text exactly when the summary is valid, and then the summary |
| `ContextMemoryModel.ContextMemory.LoadContext` | src/core/llm/Agent/memory.py:296-310 | Returns a context as specified by IsContext |
| `ContextMemoryModel.ContextMemory.RunBatches` | src/core/llm/Agent/memory.py:396-429 | The batch loop: consecutive batches of one to ten records, each committed before the next call |
| `ContextMemoryModel.ContextMemory.CommitText` | src/core/llm/Agent/memory.py:402-426 | The two writes of a commit give the specified disk, valid for exactly the batch end |
| `ContextMemoryModel.MemoryRefreshScheduler.StoreTarget` | src/core/llm/Agent/memory.py:607-619 | The session keeps the larger target and gets a worker only if it has none; other sessions are untouched |
| `ContextMemoryModel.MemoryRefreshScheduler.PopTarget` | src/core/llm/Agent/memory.py:640-641 | The worker takes the stored target; other sessions are untouched |
| `ContextMemoryModel.MemoryRefreshScheduler.FinishFailed` | src/core/llm/Agent/memory.py:645-653 | After a failure only a target beyond the failed one keeps the worker; else the session becomes idle |
| `ContextMemoryModel.MemoryRefreshScheduler.FinishReturned` | src/core/llm/Agent/memory.py:654-658 | After a success any stored target keeps the worker; else the session becomes idle |
| `RunMemory.OneRunMemory.UpdateNoFinding` | src/core/llm/Agent/memory.py:114-127 | A turn with a finding resets the count; the third one in a row without reports a missing finding |
| `RunMemory.OneRunMemory.RecordOverthink` | src/core/llm/Agent/memory.py:129-132 | Counts overthinks per step |
| `RunMemory.OneRunMemory.RecordFailedTool` | src/core/llm/Agent/memory.py:134-136 | Adds a tool once |
| `RunMemory.HandleSignal` | src/core/llm/Agent/nodes/agent_loop.py:410-422 | The first overthink of a step restarts the loop, the second fails it with the memory kept |
| `RunMemory.UseTool` | src/core/llm/Agent/nodes/agent_loop.py:120-146 | A blank or missing error counts as none; an error bars the tool; a recoverable one goes to a subagent, but not from a subagent |
| `RunMemory.TakeOver` | src/core/llm/Agent/nodes/agent_loop.py:154-202 | What the parent records about its subagent's end |
| `RunMemory.TakeTurn` | src/core/llm/Agent/nodes/agent_loop.py:36-230 | One pass through the loop body gives the specified verdict, memory and tool call |
| `AgentNodes.RestorePlanContent` | src/core/llm/Agent/nodes/planner.py:222-237 | Planned steps enter the plan pending, in order, numbered from the start index where the id is missing or forced |
| `AgentNodes.AgentLoopNode` | src/core/llm/Agent/nodes/agent_loop.py:26-250 | The node over a mutable memory gives the specified state update for every way the loop can end |
| `AgentEngine.Execute` | src/core/llm/Agent/AgentEngine.py:36-108 | The loop over rebinding states and an event list equals the specified run |
| `Chunker.SplitWithSeparator` | src/core/llm/rag_service.py:564-575 | The loop keeps every non-blank piece with its separator, in order |
| `Chunker.RagService.MergeSmallChunks` | src/core/llm/rag_service.py:577-603 | The loop over the parts equals the specified merge |
| `Chunker.RagService.RecursiveSplit` | src/core/llm/rag_service.py:539-561 | The recursion over the separators with its accumulating list equals the specified splitter |
| `Chunker.RagService.AddChunkOverlap` | src/core/llm/rag_service.py:612-624 | Chunk by chunk the overlap of FinalChunks |
| `Chunker.RagService.SplitIntoChunks` | src/core/llm/rag_service.py:260-264 | The service gives the overlapped base chunks of the normalized text |
| `DirectoryListing.EntryBudget.Claim` | src/core/llm/Agent/tools/operation_tools.py:368-383 | Claims succeed while there is room; the first refusal marks the budget truncated |
| `DirectoryListing.NestedDirectoryEntries` | src/core/llm/Agent/tools/operation_tools.py:463-493 | The loop over the shared mutable budget gives the specified entries, flag and budget |
| `DirectoryListing.ExpandChild` | src/core/llm/Agent/tools/operation_tools.py:505-528 | The change made to one entry |
| `DirectoryListing.ExpandChildDirectories` | src/core/llm/Agent/tools/operation_tools.py:496-529 | The loop that flags and fills entries in place gives the specified entries, flag and budget |
| `DirectoryListing.DirectoryEntries` | src/core/llm/Agent/tools/operation_tools.py:430-460 | The whole listing, with at most the limit of entries |
| `FileEdit.FindOldContentPositions` | src/core/llm/Agent/tools/operation_tools.py:989-998 | The positions are occurrences that do not overlap one another, in order, such that every occurrence begins inside one of them |
| `EventHubModel.EventHub.RegisterClient` | src/core/daemon/events.py:68-78 | A new client with an empty queue; what it is owed is counted from now on |
| `EventHubModel.EventHub.Subscribe` | src/core/daemon/events.py:89-107 | Fails exactly for an unknown client; else one subscription more |
| `EventHubModel.EventHub.Unsubscribe` | src/core/daemon/events.py:109-110 | Exactly the subscription with that identifier goes |
| `EventHubModel.EventHub.FanOut` | src/core/daemon/events.py:137-158 | The loop over the subscriptions in force, with removals during the loop |
| `EventHubModel.EventHub.RemoveClient` | src/core/daemon/events.py:160-166 | The client goes and no subscription of it stays |
| `EventHubModel.EventHub.SendOne` | src/core/daemon/events.py:124-135 | One event moves from the front of the queue to what was sent |
| `CliStream.ReadReply` | src/cli/commands.py:272-292 | Succeeds exactly if the first message that is not an event is the expected reply |
| `CliStream.Follow` | src/cli/commands.py:259-269 | Buffered events are replayed first, then the stream, each own event once |

## Left out

- JSON, Pydantic validation, prompts and the calls of language models and tools: replies and observations are arbitrary, already parsed inputs; error messages of parsing are opaque texts.
- The real file system: writes are atomic, a second process and fsync failures are not modelled; stops between two writes are.
- SHA-256: the digest of a record prefix is the prefix itself, so collisions are excluded.
- State or summary files corrupted by others: only files that the protocol wrote are read.
- The legacy `refresh_summary` path, which stamps coverage from records loaded after its model call and does not keep the provenance of summaries.
- Failures of thread start, of `mark_refresh_failed` and of failure callbacks: each would leave a session marked as running.
- `OneRunMemory` fields that no decision depends on (react results, tool call lists, last observation) and the texts of prompts built from them.
- Texts of error messages in the agent: each is one constructor of an error datatype.
- What the real nodes emit while they run: the equivalence of the engines holds for arbitrary emissions; the whole-run lemmas use none.
- The graph library: a node and the edge that leaves it are one superstep, its limit counts supersteps.
- Sorting of directory children, symbolic links, read errors and the keyword search of `list_dir`: children are given in display order; where the order matters (`Receivable`) only the letters A to Z are folded to lower case.
- The edit works on the text as it was read; what the newline translation of reading means for the file is `FileRestored`.
- A chunk size that is not positive; the configured one is.
- Loading and saving of documents, embeddings, reranking and retrieval.
- The `EventBus` of in-process handlers, the trace recorder, the closing of the event loop and a writer that fails while it sends; a failing writer ends in `RemoveClient`.
- `CliStream.RunAgentStream`: which error text is raised is not part of its contract.
- The session manager, the daemon's routes and sockets, printing, and the test runner tool.
