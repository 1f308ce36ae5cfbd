# Octomate, verified

Octomate runs agents in chat threads. It keeps a ledger of what was said in each thread, a history
of the runs of each conversation, and a handful of small protocols that let many coroutines share
those and a few external resources without getting in each other's way. This project models the
parts of it whose correctness depends on more than one function at a time, and proves what they
promise.

Every module has the same shape. A datatype holds the state, a function says what each step does
to it, and lemmas say what holds after any sequence of steps. Where the original changes fields in
place, a class with those fields has methods, with the original's branches and loops, whose
postconditions tie the new state to that function. An asynchronous method is cut at its `await`s:
what runs between two of them is one step, and steps of different coroutines interleave freely.
One database commit is one step. A step that is not due leaves everything as it is, so "any
sequence of steps" is every interleaving.

What holds over whole runs is said of states; what single steps and queries do is said once more, in
lemmas named `...Exactly`, by the fields and tables alone, without the functions that define them.

| file | what it models |
|---|---|
| `schema.dfy`, `wrappers.dfy` | the tables, and absent values and refusals |
| `thread.dfy` | what a thread shows, prompt windows, pages |
| `conversation.dfy` | recording runs, and the fork as one transaction |
| `fork.dfy` | what a fork gives its target and leaves alone |
| `history.dfy` | whole runs of the database: stores, runs, bindings, forks, forks of forks |
| `todos.dfy`, `tree.dfy`, `todo_store.dfy` | dependencies and cycles, the rendered tree, replacing a list |
| `kick.dfy` | one reflex a thread |
| `nerve.dfy` | bounded publish and subscribe |
| `catalog.dfy` | shared, cancellable discovery of commands |
| `receipts.dfy` | command receipts under the gateway's turn guard |
| `oauth.dfy` | refresh-token rotation under a lock (section 6 of RFC 6749) |
| `sessions.dfy` | sign-in sessions under an optimistic version column |
| `files.dfy` | file contents against metadata, with failures anywhere |
| `projects.dfy` | the project registry and deepest-root lookup |
| `accomplices.dfy` | starts and settlements put into a run's event stream |

Message ids are uuid7s (section 5.7 of RFC 9562), which the code orders rows by; here an id is the
position of its row, drawn and stored in one step. Opening a thread writes the row under which it
shows its own ledger. Tokens and ids drawn at random are numbers that never repeat. Time, what a
provider or a runtime answers, which write fails, and what the disk holds are parameters.

## Where the code does less than it says

Each of these is a lemma with the exact condition, and mostly a concrete case beside it.

- A fork with an end offset leaves unfinished turns behind, but not always their chat: the cut is
  the last chat of a completed turn, and an unfinished turn's chat before it comes along
  (`Forks.UnfinishedChatStaysBehind`, `Forks.InterleavedIsAccepted`, `Forks.InterleavedChatIsShown`).
- A fork shares run rows. One that was reserved or sketched when it was shared still changes on
  both sides; only settled runs are frozen (`History.RunStandsExactlyWhenSettled`).
- A fork refuses the source's own session handle but takes one that a third conversation holds, and
  then two resume one session (`Forks.HandlesStayApart`).
- `persist_run` is documented to set the conversation's session handle when one is given; it sets
  it always, to none if none is given. The model follows the code
  (`Conversations.HandleIsKeptExactly`, `Conversations.HandleIsLost`).
- `record_external_run` is not to record a turn that a driven run answers, but it looks for that run
  in one transaction and writes in another: persisted in between, the driven run and the ingested
  one both stand for the turn (`History.IngestWritesExactly`, `History.EarlyLookRecordsTwice`).
- Nor is recording a turn again to collide on its key. It looks for the stored run in one transaction
  and adds it in another: one recorded in between, a reservation say, makes it fail, and a finished
  turn is lost (`History.IngestCollidesExactly`, `History.ReservationLosesTheTurn`). Only its callers
  keep this from happening: hooks and tailers hold a lock per session around the call.
- `set_dependency` reads and writes in two transactions, so overlapping calls can close a cycle
  (`Todos.LateWriteKeepsAcyclic`, `Todos.OverlappingCallsCloseACycle`) or drop each other's
  dependency (`Todos.LateWriteLosesExactly`, `Todos.OverlappingCallsLoseADependency`). It also writes
  the status it decided on its reading: a blocked mark set, or a completion, in between is lost
  (`Todos.LateWriteRestoresStatus`, `Todos.LandingTakesMarkExactly`, `Todos.MarkStaysUnderOverlap`,
  `Todos.LateDependencyTakesTheMark`, `Todos.LateDependencyReopens`).
- `update_todo_status` checks for blockers and writes apart as well, so a start can land on a todo
  made to wait in between (`Todos.LateStartWaitsExactly`, `Todos.LateStartOfABlockedTodo`).
- The blocked mark that `set_dependency` sets is not taken back by what happens to the dependencies
  (`Todos.MarkFallsExactly`, `Todos.MarkStays`), so nothing may be offered though work is left
  (`Todos.NothingAvailable`, `Todos.BlockedMarkStays`).
- `write_todos` deletes the old list before it knows that the new refs differ: a ref drawn for one
  item may be a later item's own, if that is eight hex digits, and then both lists are gone (`TodoStore.WrittenExactly`,
  `TodoStore.ClashLosesTheList`).
- What is sent before a publication's block ends is to be published; a publication cancelled while
  it closes loses what the pump had not got to (`Nerves.CancelledClosingExactly`,
  `Nerves.CancelledClosingLoses`).
- A refresh that is granted but never committed leaves a token in the row that the provider has
  replaced, and the next refresh sends it (`OAuth.ReplacedIsSentExactly`, `OAuth.LostGrantIsSentAgain`).
- A session that enters `driving` twice for one conversation lets go on leaving once
  (`Receipts.OneTurnAtATimeExactly`, `Receipts.ReentryLosesTheGuard`).
- A password change ends the sessions it finds. A sign-in that read the old password and commits
  later opens one it never hears of, and where it writes the hash anew it undoes the change
  (`Sessions.OldPasswordIsOutExactly`, `Sessions.OldSignInOutlivesTheChange`,
  `Sessions.PasswordMovesExactly`).
- A copy checks that its target is free before it copies, not as it copies, and deletes what has
  come to stand there since (`Files.CopyDeletesAnothersExactly`, `Files.CopyMayDeleteAnothers`).
- A caller's block that fails after its commit deletes the content, which is harmless unless an
  append of the same file is under way: that one writes the file anew without its beginning
  (`Files.StoredBeginsWithCommitted`, `Files.UndercutExactly`, `Files.LateFailureLosesTheBeginning`).
- Of two declarations of one stored directory the earlier silently loses its name
  (`Projects.DeclarationStandsExactly`, `Projects.EarlierDeclarationIsLost`).
- An error thrown into `watch` while it hands on the last settlements loses the rest of them: the
  list was cleared before the first (`AccompliceWatch.EverythingSettlesExactly`).

## Model

| member | source | states |
|---|---|---|
| `Threads.OpenThread` | octomate/managers/thread.py:98-112 | a new thread shows exactly what is delivered to it, past and future; no other thread shows more or less, and the ledgers stay sound |
| `Threads.StoreMessage` | octomate/managers/thread.py:541-583 | a row is appended to an existing thread's ledger, gets the next id and is shown there; for an unknown thread nothing is written |
| `Threads.AdvancePromptCursor` | octomate/managers/thread.py:823-835 | only the named thread's cursor moves, to the row given, and only if the thread is known |
| `Threads.ShownIsSettled` | octomate/managers/thread.py:98-117 | however the tables grow, a row that was written stays shown, or hidden, by a thread nothing is frozen into |
| `Threads.InheritedIsFrozen` | octomate/managers/conversation.py:687-705 | of ledgers other than its own a thread shows later exactly what it showed before |
| `Threads.WindowIsExact` | octomate/managers/thread.py:792-821 | the pending window is exactly the eligible rows past the cursor up to the trigger, ascending |
| `Threads.PendingExactly` | octomate/managers/thread.py:785-821 | row by row, by what the tables hold: chat in a ledger shown, as far as it is shown, past the cursor and up to the trigger, that the agent has not said itself |
| `Threads.AdvancedIsPast` | octomate/managers/thread.py:792-835 | once the cursor is moved to a row, what is pending is what comes after it, and no other thread's window moves |
| `Threads.WindowSplits` | octomate/managers/thread.py:792-821 | a window splits anywhere into two adjoining windows |
| `Threads.WindowIsSettled` | octomate/managers/thread.py:792-821 | what is written later never changes a window over rows already there |
| `Threads.WindowsCover` | octomate/managers/thread.py:792-835 | with growing triggers, any writes between, the successive windows laid end to end are exactly the eligible rows up to the last trigger, each once, in order |
| `Threads.NewestIsExact` | octomate/managers/thread.py:1268-1321 | the listing below a bound is exactly the rows shown there, each once, newest first |
| `Threads.PageThenRest` | octomate/managers/thread.py:1268-1321 | a page takes the head of the listing, `has_more` says whether there is a tail, and the cursor resumes exactly at it on a later, larger database |
| `Threads.FollowingListsEverything` | octomate/managers/thread.py:1268-1321 | following the cursor while there is more, with a positive limit, stops and lists every row shown at the first read once, newest first, whatever is appended between pages |
| `Threads.EmptyPagesNeverEnd` | octomate/managers/thread.py:1268-1321 | with limit 0 the reader stops exactly when there is nothing to show: otherwise the cursor never moves |
| `Conversations.PersistRun` | octomate/managers/conversation.py:504-536 | a new run joins the tables and its conversation's history, and its handle, or none, replaces the conversation's; a taken id or an unknown conversation is refused whole |
| `Conversations.HandleIsKeptExactly` | octomate/managers/conversation.py:504-536 | the handle becomes the one given, or stays, exactly if one is given or there was none |
| `Conversations.HandleIsLost` | octomate/managers/conversation.py:504-536 | a concrete run that brings no handle unbinds its conversation |
| `Conversations.RecordExternalRun` | octomate/managers/conversation.py:402-502 | up to the transaction that looks for a stored run, given what the look for a driven one found: what is written holds the report's every field, the call answers with what is stored, and nothing is done where it is left to `persist_run` |
| `Conversations.AnswersWithTheStored` | octomate/managers/conversation.py:440-502 | a call answers with a run exactly if it recorded the report or only reserved one that is not driven, and with what is stored |
| `Conversations.UnionOfDescendants` | octomate/managers/conversation.py:638-660 | the recursive union ends, on cyclic parents too, and is exactly the unfinished runs and everything spawned by them at any remove |
| `Conversations.KeptHasNoDroppedAncestor` | octomate/managers/conversation.py:638-672 | no run a fork keeps descends from one it drops |
| `Conversations.LastOwn` | octomate/managers/conversation.py:620-686 | the scan finds exactly the greatest row the cut may fall at |
| `Conversations.Freeze` | octomate/managers/conversation.py:687-715 | every ledger with a cut gets its row, unless the target shows one of them already; and the greatest cut is found |
| `Conversations.Fork` | octomate/managers/conversation.py:538-745 | the whole transaction: each refusal leaves the database as it was, and success writes exactly the frozen ledgers, the kept history, the capped cursor and the handles |
| `Conversations.ForkedExactly` | octomate/managers/conversation.py:560-620 | a fork goes through exactly if its caller met every condition, and then to the stated outcome |
| `Forks.AcceptedExactly` | octomate/managers/conversation.py:565-705 | by fields, all that a fork asks of its request and of the tables |
| `Forks.ForkShowsItsSource` | octomate/managers/conversation.py:687-705 | the target shows what it showed and what reaches it under the cuts, and nothing else |
| `Forks.WholeForkShowsAll` | octomate/managers/conversation.py:620-705 | with no end offset what reaches the fork is exactly what the source showed at that moment |
| `Forks.ForkLeavesOthersAlone` | octomate/managers/conversation.py:687-705 | no other thread, the source included, shows anything more or less |
| `Forks.ForkKeepsValid` | octomate/managers/conversation.py:687-705 | every thread keeps showing its own ledger whole and every inherited one up to a written row |
| `Forks.ForkSharesTheHistory` | octomate/managers/conversation.py:707-716 | the target's history becomes the source's less the dropped runs; all others stand |
| `Forks.SharedRunsExactly` | octomate/managers/conversation.py:630-716 | run by run: the target's history is what of its source's is neither an external run of the origin's session that had not ended by the offset, nor spawned by one at any remove; a turn that ends at the offset comes along |
| `Forks.CutFallsExactly` | octomate/managers/conversation.py:620-705 | how far the fork shows its source's own ledger: up to the last row bound to a run that stays, or bound to and filed under none left behind and said no later than the last message of a run that stays |
| `Forks.InheritedPending` | octomate/managers/conversation.py:717-725 | an inherited row is in the target's pending window exactly if it is in the source's and the source had a cursor |
| `Forks.CursorStopsWithin` | octomate/managers/conversation.py:717-725 | the target's cursor is the source's or the last frozen row, whichever comes first |
| `Forks.CutIsGreatest` | octomate/managers/conversation.py:620-686 | a row of the source's ledger is within the cut exactly if a row that may hold the cut comes no earlier |
| `Forks.UnfinishedChatStaysBehind` | octomate/managers/conversation.py:622-686 | all chat of unfinished turns stays out of the fork exactly if none of it comes before chat of a completed turn |
| `Forks.InterleavedIsAccepted` | octomate/managers/conversation.py:560-620 | the concrete request below meets every condition of a fork |
| `Forks.InterleavedChatIsShown` | octomate/managers/conversation.py:622-686 | a concrete ledger and a fork that goes through, where an unfinished turn's chat does come along |
| `Forks.HandlesStayApart` | octomate/managers/conversation.py:560-740 | a fork moves the source's session handle, takes a new one or leaves the target's as it is, and makes two conversations resume one session exactly if it is given one that a third holds; no other conversation changes |
| `History.StepKeepsValid` | octomate/managers/conversation.py:538-745 | every kind of write keeps the ledger tables sound |
| `History.InheritedNeverChanges` | octomate/managers/conversation.py:687-705 | over any run of writes and further forks, a thread shows of inherited ledgers what it always showed, and loses no row of its own |
| `History.ForkInheritsForever` | octomate/managers/conversation.py:620-705 | with or without an end offset, what reached a fork is what it inherits ever after |
| `History.ForkAndSourceGrowApart` | octomate/managers/conversation.py:687-705 | ever after, a fork shows what its source showed then and what is said to itself, and the source what it showed and what is said to it |
| `History.StepMovesForward` | octomate/managers/conversation.py:402-502 | a run only moves from absent to reserved, sketched and final, and a native turn never becomes a driven one |
| `History.SettledForever` | octomate/managers/conversation.py:402-502 | a run with an end offset, or a driven one, never changes again but for its parent link |
| `History.KeptTurnsKeepTheirMessages` | octomate/managers/conversation.py:636-660 | every turn of the origin's session that an end-offset fork keeps had ended by it, and keeps its messages for ever on both sides |
| `History.RunStandsExactlyWhenSettled` | octomate/managers/conversation.py:402-502 | the messages of a shared run stand for ever exactly if it was settled when it was shared |
| `History.HistoriesGrowApart` | octomate/managers/conversation.py:707-716 | once it has one, a conversation's history changes only by runs recorded into it |
| `History.DrivenTurnStaysAnswered` | octomate/managers/conversation.py:382-461 | once a driven run answers a native turn, every later look finds it |
| `History.IngestWritesExactly` | octomate/managers/conversation.py:382-502 | two looks and a write, anything in between: an ingest of a turn that is driven by then records nothing exactly if its first look found that, its second a run not to be completed, or none though one was recorded since; otherwise it records the turn and rebinds the conversation |
| `History.IngestRecordsTheReport` | octomate/managers/conversation.py:446-502 | an ingest that goes in leaves the report's own fields under the turn, its parent included, answers with them, and touches no other run |
| `History.RecordedUnderStaysBehind` | octomate/managers/conversation.py:402-660 | a run recorded or linked under one that a fork leaves behind is left behind with it |
| `History.IngestCollidesExactly` | octomate/managers/conversation.py:408-502 | recording a turn fails on its key, and the report is lost, exactly if the second look finds no run and one is recorded before the write |
| `History.ReservationLosesTheTurn` | octomate/managers/conversation.py:408-502 | from any database without the turn: a reservation comes in between, the finished turn is refused and the run stays empty |
| `History.EarlyLookRecordsTwice` | octomate/managers/conversation.py:382-502 | from any database in which the turn is unknown: looked, driven run persisted, written, and two runs stand for one turn |
| `Todos.ByRefExactly` | octomate/capabilities/todos.py:96-98 | the index holds exactly the listed todos when refs are unique |
| `Todos.Visit` | octomate/capabilities/todos.py:112-122 | one visit of the search with its shared visited set: finds the target only along dependencies, and otherwise leaves a set closed under them |
| `Todos.HasCycle` | octomate/capabilities/todos.py:107-123 | the search ends, and is true exactly if the todo can be reached from the new dependency |
| `Todos.DependencyClosesCycle` | octomate/capabilities/todos.py:107-123 | a new dependency closes a cycle exactly when the search says so |
| `Todos.ReplacedClosesCycle` | octomate/capabilities/todos.py:107-123 | a todo given any other dependencies closes a cycle exactly if one of them already led back to it |
| `Todos.TodoList.Add` | octomate/managers/todos.py:51-71 | a todo with a fresh ref goes to the end, waiting for nothing |
| `Todos.TodoList.AddUnder` | octomate/capabilities/todos.py:273-288 | a subtask is added exactly if its parent exists |
| `Todos.TodoList.SetStatus` | octomate/capabilities/todos.py:237-258 | called alone, a status is set exactly if the todo exists and, where subtasks are enabled, is not blocked from being started |
| `Todos.TodoList.Remove` | octomate/capabilities/todos.py:260-271 | exactly the named todo goes and is returned |
| `Todos.TodoList.DependOn` | octomate/capabilities/todos.py:290-329 | called alone, all refusals of a dependency, and the row it writes: blocked if it now waits for something |
| `Todos.ToolsNeverCloseACycle` | octomate/capabilities/todos.py:224-329 | from an empty list, any sequence of tool calls one at a time keeps refs unique and the list acyclic |
| `Todos.LateWriteKeepsAcyclic` | octomate/capabilities/todos.py:290-329 | a dependency decided on an older reading and written on any newer acyclic list keeps it acyclic exactly if none of the dependencies written leads back to the todo by then |
| `Todos.OverlappingCallsCloseACycle` | octomate/capabilities/todos.py:290-329 | two overlapping calls that both read first do close a cycle |
| `Todos.LateWriteLosesExactly` | octomate/capabilities/todos.py:290-329 | of the dependencies the todo has by then a late write drops exactly those it neither read nor adds |
| `Todos.OverlappingCallsLoseADependency` | octomate/capabilities/todos.py:290-329 | from any list that allows both: two overlapping calls on one todo, and the first one's dependency is gone |
| `Todos.LateWriteRestoresStatus` | octomate/capabilities/todos.py:290-329 | the status after a late write is the one decided on the older reading, blocked or completed exactly as that says, whatever was set meanwhile; no other row changes |
| `Todos.AvailableExactly` | octomate/capabilities/todos.py:126-133 | the available todos are exactly the pending ones with no incomplete dependency |
| `Todos.OfferedExactly` | octomate/capabilities/todos.py:126-133 | what is offered is what is pending or in progress and depends on nothing incomplete, each todo once, in the order of the list |
| `Todos.SomethingIsWorkable` | octomate/capabilities/todos.py:100-133 | in an acyclic list with an incomplete todo, some incomplete todo waits for nothing |
| `Todos.MarkFallsExactly` | octomate/capabilities/todos.py:224-329 | one call at a time, a blocked mark falls by exactly two: removing the todo, or giving it another status outright |
| `Todos.MarkStays` | octomate/capabilities/todos.py:224-343 | so over any sequence of other calls, one at a time, it stays, and the todo is never offered, whatever becomes of its dependencies |
| `Todos.LandingTakesMarkExactly` | octomate/capabilities/todos.py:224-329 | the write of a call that read earlier takes a blocked mark exactly if it was decided to leave that todo another status |
| `Todos.MarkStaysUnderOverlap` | octomate/capabilities/todos.py:224-343 | over any interleaving of calls and their halves a mark stays, and the todo is never offered, unless taken by hand or by a call that had read before it was set |
| `Todos.LateDependencyTakesTheMark` | octomate/capabilities/todos.py:290-329 | from any list that allows it: a completed dependency is read, another marks the todo, and the write takes the mark |
| `Todos.LateDependencyReopens` | octomate/capabilities/todos.py:290-329 | from any list that allows it: a todo completed after a dependency of it was read is incomplete again |
| `Todos.LateStartWaitsExactly` | octomate/capabilities/todos.py:237-258 | a start written late leaves a started todo that waits for something exactly if it was blocked at that moment, or waits for itself |
| `Todos.LateStartOfABlockedTodo` | octomate/capabilities/todos.py:237-329 | from any list that allows it: a start is read, the todo is made to wait, and the start is written |
| `Todos.ReadyAllowsAll` | octomate/capabilities/todos.py:224-329 | a concrete list that allows all three |
| `Todos.NothingAvailable` | octomate/capabilities/todos.py:126-133 | with work left nothing is offered exactly if every incomplete todo that waits for nothing has a stale blocked mark, and then there is one |
| `Todos.BlockedMarkStays` | octomate/capabilities/todos.py:290-343 | a concrete list, reached by the tools, where the mark has outlived its dependency and nothing is offered though all is workable |
| `TodoTree.Walk` | octomate/capabilities/todos.py:144-169 | the recursive walk ends on any parent references and renders exactly what hangs under a path, once each, after its parent, numbered on |
| `TodoTree.RenderTree` | octomate/capabilities/todos.py:136-172 | the tree has one line, numbered consecutively, for exactly the todos whose parents lead to a root |
| `TodoTree.PlacedExactly` | octomate/capabilities/todos.py:144-169 | a todo has a place exactly if it is a root or its parent has one: parent cycles have none |
| `TodoTree.OnePathToEach` | octomate/capabilities/todos.py:144-169 | with unique refs at most one way leads from a root to a todo |
| `TodoTree.RootPathIsShort` | octomate/capabilities/todos.py:144-169 | no ref comes twice on the way down, which is what bounds the recursion |
| `TodoStore.FreshRef` | octomate/managers/todos.py:16-21 | the first draw that is not taken, and one is found exactly if the draws come to one |
| `TodoStore.TodoManager.WriteTodos` | octomate/managers/todos.py:123-162 | the old list goes first; the new one, each row with its item's fields and its own ref or the first draw none before it has, is written whole or, where refs clash, nothing is left; safe lists are always written |
| `TodoStore.WrittenExactly` | octomate/managers/todos.py:146-161 | a list is written whatever is drawn exactly if its own refs differ and none of eight hex digits follows an item without one; for lists no longer than there are such refs |
| `TodoStore.ClashLosesTheList` | octomate/managers/todos.py:136-161 | from any ref that can be drawn: two items, the draw for the first is the second's own, and the write is refused after the old list was deleted |
| `Kicks.OneReflexAThread` | octomate/base.py:348-391 | whatever happened, of two tasks of a thread the earlier had let the thread go before the later was made: one reflects at a time |
| `Kicks.AwakeExactly` | octomate/base.py:360-391 | a thread is awake exactly as long as a task of its own has yet to let it go |
| `Kicks.NothingLeftAwake` | octomate/base.py:384-391 | when all tasks are over and their callbacks ran, no thread is awake |
| `Kicks.OnlyItsOwnStepLetsGo` | octomate/base.py:377-387 | a task's place in the map goes only by its own finally clause or callback: a late one never takes a successor out |
| `Kicks.RefusedExactly` | octomate/base.py:354-360 | for good, a kick is refused exactly if it is no deferred answer and found the thread awake |
| `Kicks.EveryTaskHasItsKick` | octomate/base.py:389-391 | every task was started by exactly one kick, on that kick's thread |
| `Kicks.AnswersCanAlwaysStart` | octomate/base.py:354-359 | a waiting answer is never stuck: from wherever a run got to, its thread's reflex ending is enough to start it |
| `Kicks.StepKeepsValid` | octomate/base.py:348-391 | the invariant behind these, kept by every step |
| `Kicks.Octomate.Meet` | octomate/base.py:354-391 | the loop, the refusal, and the task put into the map |
| `Kicks.Octomate.Ask` | octomate/base.py:354-391 | a new kick does exactly what the model's step says |
| `Kicks.Octomate.Resume` | octomate/base.py:354-359 | an answer whose awaited task is over comes back to the head of the loop |
| `Kicks.Octomate.FallAsleep` | octomate/base.py:376-382 | the unconditional delete always finds an entry, and its own |
| `Kicks.Octomate.Release` | octomate/base.py:384-387 | the callback removes the entry only if it is still the task's |
| `Nerves.EachItsOwn` | octomate/nerve.py:113-136 | nothing that happens to another subscriber touches this one's stream |
| `Nerves.NothingIsSkipped` | octomate/nerve.py:113-186 | what a subscriber read plus what is held for it is a gap-free prefix of what was delivered to its topic since it subscribed; all of it unless cut off, and without a bound never cut off |
| `Nerves.CutOffStaysSo` | octomate/nerve.py:178-186 | cut off, a stream is never longer again |
| `Nerves.CutOffExactly` | octomate/nerve.py:178-186 | a subscriber still there is cut off exactly if some delivery found it its whole backlog behind |
| `Nerves.ReadsOutThenEnds` | octomate/nerve.py:118-122 | cut off, a reader is given all that was held for it, and only then the end |
| `Nerves.SentIsPublished` | octomate/nerve.py:138-173 | what went out is a gap-free prefix of what was sent, at most the buffer and one in hand behind, and all of it once the pump ran dry |
| `Nerves.SendsKeepTheirTurn` | octomate/nerve.py:148-150 | a send that has to wait keeps its turn |
| `Nerves.ClosingDrains` | octomate/nerve.py:167-173 | after the block ends the pump left alone publishes the rest and stops |
| `Nerves.CancelledClosingExactly` | octomate/nerve.py:138-173 | cancelled while it closes, a publication publishes nothing more; all that was sent is published exactly if the pump had got to it, and every send begun exactly if none was waiting besides |
| `Nerves.CancelledClosingLoses` | octomate/nerve.py:169-173 | a concrete publication cancelled while it closes, with an impulse sent and never published |
| `Nerves.SaidOnce` | octomate/nerve.py:155-165 | routing an impulse delivers it once to each distinct topic, in whatever order the set gives |
| `Nerves.ConcernedExactly` | octomate/nerve.py:155-165 | a channel hears what happens on it, a thread what happens there and, unless private, what was asked there; where the two threads are one, so is the topic |
| `Nerves.PublishedIsHeardOnce` | octomate/nerve.py:138-186 | an unbounded subscriber there throughout hears of what was published exactly what concerns its topic, each impulse once, in the order sent, as it was sent but for the thread it was asked for on |
| `Nerves.Nerve.Subscribe` | octomate/nerve.py:131-132 | the new fiber joins its topic's set and no other changes |
| `Nerves.Nerve.Leave` | octomate/nerve.py:133-136 | the fiber leaves and closes, and a topic nobody hears has no entry |
| `Nerves.Nerve.Deliver` | octomate/nerve.py:175-186 | each subscriber of the topic is sent the impulse once, and nobody else |
| `Nerves.Nerve.Route` | octomate/nerve.py:155-165 | each subscriber hears the stamped impulse once if its topic is concerned and is left alone if not |
| `Nerves.Fiber.SendNowait` | octomate/nerve.py:178-186 | a send without waiting, with its refusals as the nerve takes them |
| `Catalogs.MatchingIsAnEquivalence` | octomate/schemas/commands.py:55-74 | contexts match exactly if they differ in nothing but the conversation's revision; an equivalence that respects the catalog key |
| `Catalogs.StepKeepsValid` | octomate/managers/commands.py:98-192 | the invariant of catalogs, probes and callers, kept by every step |
| `Catalogs.OneProbeAKey` | octomate/managers/commands.py:122-147 | at most one unfinished probe a key, and it is the one the next lookup finds |
| `Catalogs.StoredWasDiscovered` | octomate/managers/commands.py:149-192 | a stored catalog that is not loading was put there by its own probe, begun for a matching context, finishing while its placeholder was still stored, and is what that probe's agent found, or its failure |
| `Catalogs.AnswersWereDiscovered` | octomate/managers/commands.py:122-147 | every answer matches the caller's context, and unless loading it is one a probe stored |
| `Catalogs.FinishedExactly` | octomate/managers/commands.py:149-192 | a probe that ends over its own placeholder stores and returns exactly what its agent found, if that is for its context, and a failure otherwise; over another it stores nothing |
| `Catalogs.InvalidatedForGood` | octomate/managers/commands.py:503-519 | after an invalidation a key it concerns never again holds, and no later lookup is given, what a probe begun before found |
| `Catalogs.InvalidatedWaitersReceiveLoading` | octomate/managers/commands.py:503-519 | whoever still waits for an invalidated probe is told loading, or sees it cancelled |
| `Catalogs.RefreshedIsFresh` | octomate/managers/commands.py:122-147 | a refreshing lookup is never answered by a probe that was over when it asked |
| `Catalogs.StoredAnswers` | octomate/managers/commands.py:122-131 | the store answers at once exactly with a matching catalog that is neither loading nor failed, and with that one |
| `Catalogs.CommandManager.Look` | octomate/managers/commands.py:122-147 | one pass of the retry loop: share, answer, cancel and drain, or replace |
| `Catalogs.CommandManager.Discover` | octomate/managers/commands.py:98-147 | a lookup's first pass, with the caller's stage |
| `Catalogs.CommandManager.EndProbe` | octomate/managers/commands.py:149-192 | a probe's end stores its result only over its own placeholder |
| `Catalogs.CommandManager.Complete` | octomate/managers/commands.py:142-147 | the callback removes only its own entry |
| `Catalogs.CommandManager.Invalidate` | octomate/managers/commands.py:503-519 | exactly the concerned catalogs go |
| `Receipts.DispatchedOnce` | octomate/managers/commands.py:371-467 | whatever fails, is cancelled or restarted between, a conversation's delivery is handed to a runtime once |
| `Receipts.RetryYieldsTheOutcome` | octomate/managers/commands.py:313-333 | once recorded, a matching retry is answered with the outcome for good, and any other request under that id refused |
| `Receipts.AcceptedIsNotRepeated` | octomate/managers/commands.py:313-337 | a delivery once accepted is never validated again, and until an outcome is recorded a matching retry is told that there is none |
| `Receipts.JudgedExactly` | octomate/managers/commands.py:313-369 | a request passes exactly if nothing refuses it, it is not recorded for its conversation and the catalog does not object; a refusal comes first, then the record's answer, then the objection, each as it is |
| `Receipts.JudgedAwayIsNeverDispatched` | octomate/managers/commands.py:225-467 | whatever follows, what was refused, recorded already or objected to is never dispatched |
| `Receipts.ChatTakesTheId` | octomate/managers/commands.py:313-337 | a chat message takes its delivery id as a receipt does: no command is accepted under it |
| `Receipts.StreamedIsDoneExactly` | octomate/managers/commands.py:469-501 | a streamed command is recorded as done exactly if its consumer came to the end, left normally, and both generators closed cleanly; for good |
| `Receipts.AnswerIsRecorded` | octomate/managers/commands.py:423-462 | a direct outcome, or failure, is its receipt's outcome for good |
| `Receipts.StepKeepsValid` | octomate/managers/commands.py:194-501 | the invariant tying scopes to receipts, kept by every step |
| `Receipts.OneTurnAtATimeExactly` | octomate/managers/gateway.py:1032-1068 | a conversation has one turn at a time throughout a run exactly if no session enters one it is driving already |
| `Receipts.ReentryLosesTheGuard` | octomate/managers/gateway.py:977-1002 | a session that enters twice leaves once too early, and a third turn gets in beside the first |
| `Receipts.JudgedNewIsStored` | octomate/managers/commands.py:225-410 | under the guard, what was judged new is still new to its conversation when its receipt is stored |
| `Receipts.GatewayManager.Register` | octomate/managers/gateway.py:977-993 | a session holds the conversation if it is free or its own, and is refused otherwise |
| `Receipts.GatewayManager.Unregister` | octomate/managers/gateway.py:995-1002 | only its own entry goes |
| `Receipts.GatewayManager.Enter` | octomate/managers/gateway.py:1032-1058 | a turn is let in exactly where the guard admits it, under the session's or the caller's conversation |
| `Receipts.GatewayManager.Exit` | octomate/managers/gateway.py:1059-1068 | the way out removes this turn's entry and no other's |
| `Receipts.CommandManager.Validate` | octomate/managers/commands.py:308-369 | validated exactly without refusal, record or objection, each of which is answered in that order |
| `Receipts.CommandManager.RecordOutcome` | octomate/managers/thread.py:610-628 | from then on this request is answered with the outcome and every other under its id refused; no other row is touched |
| `Receipts.CommandManager.RecordStream` | octomate/managers/commands.py:469-501 | the outcome recorded for a stream |
| `OAuth.SentIsStored` | octomate/managers/oauth.py:937-1020 | the refresh token that goes to the provider is the stored one, on an active connection with no more life left than the leeway, with nobody else in the lock |
| `OAuth.AnsweredWithTheStored` | octomate/managers/oauth.py:893-1024 | a caller is answered with the stored token exactly if the connection is active and has no end or more life left than the leeway; with none, or later, in all other cases |
| `OAuth.ReplacedIsSentExactly` | octomate/managers/oauth.py:986-1020 | a replaced refresh token is sent again exactly if a grant was lost on its way to the row and none has been stored since |
| `OAuth.LostGrantIsSentAgain` | octomate/managers/oauth.py:986-1020 | it happens from any connection that is due: refreshed, cancelled before the commit, refreshed again |
| `OAuth.LostGrantEndsTheConnection` | octomate/managers/oauth.py:988-1002 | whoever then sends it and is answered finds the connection ended |
| `OAuth.StaleNewsIsVoid` | octomate/managers/oauth.py:817-866 | once a token has been replaced, news of its death never retires the connection |
| `OAuth.StoredGrantIsUsed` | octomate/managers/oauth.py:1003-1020 | a stored grant replaces the whole connection and leaves it active under a new token |
| `OAuth.AuthorizedOnce` | octomate/managers/oauth.py:465-555 | an authorization code goes to the provider at most once, and an operation stores at most one grant |
| `OAuth.GrantsAreNew` | octomate/managers/oauth.py:520-600 | what the provider grants is a new pair of tokens, none it has replaced; anything else ends the call with nothing |
| `OAuth.StepKeepsValid` | octomate/managers/oauth.py:465-1020 | the invariant of lock, connection and operations, kept by every step |
| `OAuth.OAuthManager.AccessToken` | octomate/managers/oauth.py:893-935 | the first look answers with the stored token exactly if it is active and lasts longer than the leeway, and otherwise waits, retires or answers nothing |
| `OAuth.OAuthManager.Refresh` | octomate/managers/oauth.py:956-985 | inside the lock the connection is read again, and answered with exactly if it is active and lasts longer than the leeway |
| `OAuth.OAuthManager.Invalidate` | octomate/managers/oauth.py:836-866 | the row is retired only if the news is of its token |
| `OAuth.OAuthManager.Complete` | octomate/managers/oauth.py:489-555 | an operation is refused, consumed or kept before the provider is asked |
| `OAuth.OAuthManager.GrantedConnection` | octomate/managers/oauth.py:557-606 | the grant's whole envelope is stored, with the device operation it came from |
| `Sessions.ExchangedOnce` | octomate/managers/auth.py:265-302 | with reads and commits interleaved freely each refresh token is exchanged by at most one refresh |
| `Sessions.RevokedForGood` | octomate/managers/auth.py:240-315 | a committed revocation is never undone and a session's deadline never moves |
| `Sessions.SignedInExactly` | octomate/managers/auth.py:138-200 | a sign-in's access token stands for its session exactly until it is replaced, revoked, or one of its two lifetimes is over |
| `Sessions.SessionsWereSignedInTo` | octomate/managers/auth.py:138-186 | over any run, whoever has a session was let in with what was the user's password when it was given |
| `Sessions.ChangesWereVerified` | octomate/managers/auth.py:202-238 | and none is changed without what was the current one, where one is asked for |
| `Sessions.SignInOpens` | octomate/managers/auth.py:160-186 | a sign-in opens one session of its user, with two tokens no other has, and its lifetimes begin then |
| `Sessions.ExchangedTokensAreDead` | octomate/managers/auth.py:265-302 | after a refresh the access expiry is within the deadline and neither replaced token is any session's again |
| `Sessions.RefreshedStands` | octomate/managers/auth.py:265-302 | a refresh that nothing overtakes gives new tokens, access for its lifetime but within the deadline, and touches no other session |
| `Sessions.SignedOutExactly` | octomate/managers/auth.py:240-263 | a sign-out that nothing overtakes ends exactly the sessions either token names |
| `Sessions.RevokedExactly` | octomate/managers/auth.py:304-315 | a revocation that nothing overtakes ends exactly the session named, if it is the user's own |
| `Sessions.PasswordChangeEndsSessions` | octomate/managers/auth.py:202-238 | a committed password change has ended for good every session its user had when it listed them, whatever came between; one refused changed nothing |
| `Sessions.PasswordChangedExactly` | octomate/managers/auth.py:202-238 | a change that nothing overtakes ends exactly the sessions of its user and replaces the password |
| `Sessions.OldPasswordIsOutExactly` | octomate/managers/auth.py:138-238 | besides the sessions it found, every one opened on a password read before the change committed is over or never came to be, exactly if no such sign-in commits after the change has listed the sessions |
| `Sessions.OldSignInOutlivesTheChange` | octomate/managers/auth.py:138-238 | from any state: read, changed, committed, and the session on the old password stands; where the hash is written anew the new password is gone |
| `Sessions.PasswordMovesExactly` | octomate/managers/auth.py:162-238 | a stored password moves exactly by a committed change or a committed sign-in that writes the hash anew, to another secret |
| `Sessions.CommitKeepsValid` | octomate/managers/auth.py:265-302 | the invariant of rows and open transactions, kept by every commit |
| `Sessions.StepKeepsValid` | octomate/managers/auth.py:138-315 | and by every step |
| `Sessions.AuthManager.RefreshSession` | octomate/managers/auth.py:265-294 | the read half of a refresh: refused, or new tokens staged within the deadline |
| `Sessions.AuthManager.Logout` | octomate/managers/auth.py:240-263 | every live session either token names is staged for revocation |
| `Sessions.AuthManager.Login` | octomate/managers/auth.py:138-186 | the read half of a sign-in: staged exactly with the stored password |
| `Sessions.AuthManager.SetPassword` | octomate/managers/auth.py:202-225 | up to the wait for the hasher: refused unless the current password, where one is asked for, is the stored one |
| `Sessions.AuthManager.EndSessions` | octomate/managers/auth.py:226-238 | every live session the user has by then is staged together with the new password |
| `Sessions.AuthManager.Update` | octomate/models/auth.py:58-86 | rows are updated only if every one still has the version that was read |
| `Sessions.AuthManager.Flush` | octomate/managers/auth.py:295-302 | all of a transaction lands or none of it, a sign-in's new session included |
| `Files.StoredBeginsWithCommitted` | octomate/managers/files.py:24-47 | wherever storage or commits fail, a file's stored bytes are missing or begin with everything committed for it, unless a block that failed after its commit undercut an append of that file |
| `Files.ReadReturnsWhatWasCommitted` | octomate/managers/files.py:283-295 | a read that succeeds returns exactly the first write followed by every committed append, in order, unless the file was so undercut |
| `Files.CommittedIsReadable` | octomate/managers/files.py:53-295 | what is committed can be read back at once; a file whose append failed to commit is refused |
| `Files.CopiesWhatWasCommitted` | octomate/managers/files.py:130-241 | a copy that goes through holds the committed content of its source |
| `Files.CopiesPrefixOfCommitted` | octomate/managers/files.py:186-241 | a partial copy is to hold the prefix asked for of its source's committed content |
| `Files.FailuresSpareOthers` | octomate/managers/files.py:66-241 | an upload or copy, failing anywhere, leaves alone every object another here made; a foreign one only at its own key, and a refusing write not even that |
| `Files.DeleteLeavesNothing` | octomate/managers/files.py:297-314 | a delete that goes through leaves neither content nor row, whatever else goes on, and touches no other file |
| `Files.CopyDeletesAnothersExactly` | octomate/managers/files.py:164-177 | a copy gone wrong deletes an object it did not make exactly if one has come to stand at its target since it looked |
| `Files.CopyMayDeleteAnothers` | octomate/managers/files.py:164-177 | and one may: from any copy under way, a foreign write at its key is deleted with the copy |
| `Files.LateFailureLosesTheBeginning` | octomate/managers/files.py:104-110 | a block that fails after its commit takes the content from under an append, and the beginning is lost |
| `Files.UndercutExactly` | octomate/managers/files.py:53-314 | the model marks a file as undercut exactly in runs where a block fails after its commit while an append of the same file is under way |
| `Files.StepKeepsValid` | octomate/managers/files.py:53-314 | the invariant of rows, objects and locks, kept by every step |
| `Files.FileManager.Upload` | octomate/managers/files.py:98-110 | one write that refuses a taken key |
| `Files.FileManager.FailBlock` | octomate/managers/files.py:104-110 | a failed block's content goes, unless that fails as well |
| `Files.FileManager.CheckAppend` | octomate/managers/files.py:258-275 | an append starts exactly at the stored and committed size |
| `Files.FileManager.CommitAppend` | octomate/managers/files.py:276-281 | the size grows with the commit or not at all |
| `Files.FileManager.Copy` | octomate/managers/files.py:164-184 | the provider's copy with the cleanup around it |
| `Files.FileManager.Read` | octomate/managers/files.py:283-295 | bytes only of the row's scope and size |
| `Files.FileManager.Delete` | octomate/managers/files.py:297-314 | content goes before the row that tracks it |
| `Projects.ResolvesDeepest` | octomate/managers/project.py:70-80 | a directory is in the one enabled project whose root holds it deepest down, and in none exactly if no enabled root holds it |
| `Projects.ResolvedExactly` | octomate/managers/project.py:70-175 | a directory is in the project that names the deepest of the directories holding it, among the rows whose root is there, and in none if there is none |
| `Projects.TiesDoNotMatter` | octomate/managers/project.py:167-175 | any two deepest-first orders of the same roots resolve alike |
| `Projects.EntriesExactly` | octomate/managers/project.py:165-175 | the index holds exactly the enabled rows' roots |
| `Projects.OneEntryAPath` | octomate/managers/project.py:137-150 | where no directory is claimed twice one path is indexed once |
| `Projects.CoherentExactly` | octomate/managers/project.py:129-151 | a registry is accepted exactly if its names differ, and so do all directories its rows name |
| `Projects.DeclarationStandsExactly` | octomate/managers/project.py:113-128 | after a reconciliation that succeeds a declaration is found at its root with its name, further roots and details exactly if no later one names the same directory |
| `Projects.DeclaredRootsResolve` | octomate/managers/project.py:91-175 | the directories a standing declaration names, its further ones included, resolve to it while its root is there |
| `Projects.UndeclaredStays` | octomate/managers/project.py:91-128 | a stored row that nothing declares stays as it is |
| `Projects.EarlierDeclarationIsLost` | octomate/managers/project.py:91-153 | one stored directory declared under two new names is accepted, and the first name is nowhere |
| `Projects.ProjectManager.ByRoot` | octomate/managers/project.py:115-115 | the rows by resolved root, the later of two under the same |
| `Projects.ProjectManager.Adopt` | octomate/managers/project.py:113-128 | each declaration adopts the stored row of its root or adds one |
| `Projects.ProjectManager.Check` | octomate/managers/project.py:129-151 | the loops find a repeated name or directory exactly if there is one |
| `Projects.ProjectManager.Sort` | octomate/managers/project.py:167-175 | deepest first, the same entries |
| `Projects.ProjectManager.Reconcile` | octomate/managers/project.py:91-153 | refused exactly on a conflict, with nothing changed; otherwise rows, names and index are those of the reconciled registry |
| `Projects.ProjectManager.Resolve` | octomate/managers/project.py:70-80 | the first root that holds the resolved path |
| `AccompliceWatch.ErasingGivesBack` | octomate/capabilities/gateway.py:287-307 | however the stretch ends, leaving out starts and settlements gives back the run's events |
| `AccompliceWatch.EverythingSettlesExactly` | octomate/capabilities/gateway.py:287-355 | every accomplice settles as often as it started, even where call ids repeat, exactly if no error is thrown in with settlements left to hand on |
| `AccompliceWatch.UnsettledIs` | octomate/capabilities/gateway.py:287-355 | what stays unsettled is what was left at the end and not handed on |
| `AccompliceWatch.NothingSettlesEarly` | octomate/capabilities/gateway.py:287-307 | at no moment has one settled more often than it started |
| `AccompliceWatch.AnnouncedExactly` | octomate/capabilities/gateway.py:309-344 | a result settles its accomplice right before it passes, exactly if one is working under that id, as completed or failed; a start comes right before its call, exactly if that calls an accomplice and names it |
| `AccompliceWatch.UnansweredEndWithTheStretch` | octomate/capabilities/gateway.py:287-307 | what settles without a result is cancelled if the stretch was, and failed otherwise |
| `AccompliceWatch.Accomplices.Observe` | octomate/capabilities/gateway.py:309-344 | one event's announcement and the working list after it |
| `AccompliceWatch.Accomplices.Abandon` | octomate/capabilities/gateway.py:346-355 | all that is left settles, in order, and the list is cleared |
| `AccompliceWatch.Accomplices.Watch` | octomate/capabilities/gateway.py:287-355 | the loop hands on exactly the stated outputs, wherever an error is thrown in, and leaves the list empty |

## Left out

- Conversations.Fork: the name, permission mode, effort and allowed tools that are copied along, the
  transcript row and the returned run id are not modelled; none of them bears on what is shared.
- Conversations.RecordExternalRun: the look for a driven run is a transaction of its own and comes in
  as the parameter `answered`, and the persist that follows where nothing is stored is
  `Conversations.PersistRun`; `History.Ingest` puts the three together, with anything in between. The
  lock that callers hold per session is left out, so any number may overlap; usage, model and tool-call
  fields of a run are left out.
- Threads.StoreMessage: the unique delivery index is modelled in `receipts.dfy` only, titles and
  timestamps of the thread are not, and neither are the events published afterwards.
- Threads.FollowingListsEverything: is about `unbound` false; page totals and the encoding of
  cursors are left out. The pages of model messages in
  `octomate/managers/conversation.py` walk the same way over another scope.
- Threads.WindowsCover: the window is that of the surface thread itself; how a sub-thread finds its
  surface is left out.
- Threads.EmptyPagesNeverEnd: routes ask for limits from 1 to 500, so none asks for 0.
- History.InheritedNeverChanges: is about which rows a thread shows. `redate_message` and
  `mark_presented` rewrite a shared row's date and platform id on both sides; deleting threads,
  conversations or messages is left out.
- Todos.TodoList.SetStatus: is one call with nothing in between; what becomes of it when others come
  between its reading and its write is `Todos.LateStartWaitsExactly`.
- Todos.TodoList.DependOn: likewise; overlapping, it is the `Late` and `Landing` lemmas.
- Todos.ToolsNeverCloseACycle: is about calls one at a time, and without `write_todos`, which
  replaces the list without looking for cycles; contents and positions are left out, list order
  standing for position order.
- TodoTree.RenderTree: the text of a line is left out but for its number, depth and todo.
- Kicks.Octomate.Ask: an answer to a live request, which goes to the run waiting for it and wakes
  nothing, is left out, and so is everything a reflex does while it is awake.
- Nerves.PublishedIsHeardOnce: is about one publisher; others only add impulses of their own. A read
  cancelled in the same instant an impulse was handed to it is left out.
- Nerves.SentIsPublished: the stream between a publisher and its pump is the library's, so it is
  modelled on values; only the pump's body is a method.
- Catalogs.CommandManager.Look: eviction from the bounded store may take any entry at any time; the
  filter that drops goal commands from a result and the check that the agent is the context's are
  left out. Closing the manager is cancelling every probe and invalidating without filters.
- Receipts.CommandManager.Validate: which of its other refusals apply is a parameter, as the surface,
  profile, route and catalog checks are each a single comparison.
- Receipts.JudgedNewIsStored: is about runs in which no session re-enters its own conversation.
- OAuth.SentIsStored: is about one user's connection to one connector, the key of the lock; encryption
  is the identity, and connections deleted with their user are left out.
- OAuth.AuthorizedOnce: a callback the user declined, which only consumes its operation, is left out.
- OAuth.ReplacedIsSentExactly: a provider is taken to reject a refresh token it has replaced.
- Sessions.ExchangedOnce: hashes stand for their tokens and passwords, and whether a hash is due to
  be written anew is a parameter; invitations and API keys are left out.
- Sessions.AuthManager.SetPassword: that one user's changes wait for each other is left out, so any
  number may overlap.
- Files.ReadReturnsWhatWasCommitted: names and media types are left out.
- Projects.ProjectManager.Reconcile: a commit that the unique index on names refuses although the
  checks passed, as when two rows swap names, is left out.
- AccompliceWatch.Accomplices.Watch: a consumer that closes the generator early is left out; lifecycle
  events that are already in the stream pass as any other event.
- The pool of external tool servers, deferred action batches, the validation of gateway spells, HTTP
  routes, channels, agent runtimes, prompts, configuration and the command line are not modelled.
