# Verified models of five stateful cores

This project models the parts of the repository whose correctness cannot be read off one branch, and proves
what they promise, for all inputs and over all runs. `dafny verify dfyconfig.toml` checks everything.

| files | what they model |
|---|---|
| `Graph`, `Layering`, `LayerOrder`, `Layout`, `Scene` | the diagram compiler: from boxes and arrows to a scene that its own checker accepts |
| `SubtaskProtocol`, `DagExecutor`, `ReplanLoop`, `GoalText` | the Conductor: rows shared with worker processes, the dependency graph, the build loop, goal rewriting |
| `JsonScanner`, `Text` | finding JSON objects in model output |
| `Cooldowns`, `Routing`, `Proxy` | the proxy's model ladder, failure window and retry, shed and revert loops |
| `Ledger` | the event-sourced agent ledger and its compaction |
| `Vault`, `QuoteIndex` | the document vault's deposits, and the text index behind anchored comments |

Code that changes state is written as methods over fields, maps and loops and is proved against a
specification: a function, a relation between old and new tables, or a predicate over the whole history. The
protocol between the Conductor and its workers is a state machine, and its theorems range over every
interleaving of its steps.

## What is proved

**Diagrams.** The depth-first search leaves an acyclic edge set to which nothing can be put back. Relaxation
gives each node the length of the longest kept walk that ends there. The sweeps order each row by the edges
into the next, so that single edges between neighbouring layers do not cross. No two boxes overlap after
centring, shifting and rounding, and every kept edge runs forward. The generated scene draws exactly the
specification, each arrow from side to side of its boxes, and always passes the checker.

**Conductor.** Over every interleaving, each attempt of a subtask is dispatched at most once, has at most one
result applied, and the first final row of an attempt is the last. The executor's done set is a least
fixpoint, and exactly the pending subtasks outside its reach are blocked. The executor is a run of the
protocol, and every interleaving of a round, late workers included, ends with the rows that it computes. A
mission is finished only after a round in which every subtask still open reported done and the evidence
shipped. Goals never accumulate sections.

**JSON.** From any text with a brace-free prefix the scanner takes exactly the object that was printed there
(RFC 8259, sections 2 to 7), whatever its strings hold.

**Proxy.** Against every upstream behaviour both loops end within their send bounds, the client gets the status
of the last send, costs fall strictly, no model tried costs more than what was asked for, every failure is
recorded once, a work session's own turn sends the original bytes, and no response handle leaks. The cooldown table refines a specification over the full failure history.

**Ledger.** Replay keeps the last write to each field since its key last went away; compaction is invisible to
every continuation.

**Vault.** Identity, numbering and immutability of versions hold over every run of deposits and forgets. A quote
taken from a document with solid ends is recognised at its place exactly when it has no white space but what
the index collapses, and a range that is found covers just what was searched for.

## Where the code and its promise part

For each there is a lemma that says exactly when the promise holds, and where the failing case is not plain
from it, a second one that reaches it.

* `Vault.RefusedExactlyWhenBehind`, reached in `RefusalIsReached`: after a revert, new content at the path is refused until the newest version is back.
* `Vault.DepositAgain`, reached in `UnwantedRevertIsReached`: depositing the same file twice is not idempotent when a new path brought in an old version's content; the second deposit reverts the document.
* `Ledger.ReapMarksFound`, reached in `ReapCanMissTheAgent`: reaping an agent that was spawned under an empty repo, under a repo of the caller's, leaves it live and creates a dormant record beside it.
* `Ledger.LookupAfterCompaction`, reached in `CompactionCanMoveAName`: compaction reorders the dictionary, so a lookup by a name that two live records share may give the other one.
* `GoalText.FeedbackSurvivesRedispatch`: for a subtask that was dispatched with dependencies, verification feedback is cut off before the next worker reads it.
* `SubtaskProtocol.SplitReplanIsSafeExactly`, reached in `SplitReplanLetsALateResultIn`: the re-plan write and the attempt bump are two writes in the code. They act as one exactly when no worker of a current attempt still runs; otherwise a timed-out worker's result can be applied between them, and a `done` survives the bump.
* `QuoteIndex.QuotesAreRecognisedExactly`: a quote with white space that the search collapses and the index keeps, a line separator say, is not recognised where it was taken. It is then lost (`SeparatorsHideQuotes`) or found at another place (`SeparatorsMisplaceQuotes`).

## Model

| member | source | states |
|---|---|---|
| Graph.BackEdgeClosesCycle | scripts/excalidraw-gen.py:267-271 | an edge whose head reaches its tail lies on a directed cycle |
| Graph.RankMakesAcyclic | scripts/excalidraw-gen.py:267-298 | edges that strictly lower a rank, such as the finish order, form no cycle |
| Graph.AcyclicWalkIsShort | scripts/excalidraw-gen.py:306-307 | a walk in an acyclic graph has no more nodes than the graph, so as many rounds as nodes suffice |
| Layering.Visit | scripts/excalidraw-gen.py:279-293 | the iterative search from a root, with its explicit stack, keeps the search invariant and blackens all it enters |
| Layering.AcyclicEdges | scripts/excalidraw-gen.py:267-298 | the kept edges are acyclic, and every dropped edge closes a cycle with edges that were kept |
| Layering.AcyclicInputKeepsEverything | scripts/excalidraw-gen.py:267-298 | no edge is lost if and only if the input was acyclic |
| Layering.RelaxOnce | scripts/excalidraw-gen.py:307-314 | one in-place pass over the edges raises layers, never past attained walks, and reports whether it changed any |
| Layering.LongestPathLayers | scripts/excalidraw-gen.py:306-315 | after at most as many passes as nodes, each node's layer is the length of the longest walk that ends there |
| Layering.AssignLayers | scripts/excalidraw-gen.py:301-315 | the same over the input without self-loops and dropped edges |
| Layering.LayersIncreaseAlongEdges | scripts/excalidraw-gen.py:301-315 | every kept edge leads to a strictly later layer |
| Layering.PredecessorOneLayerUp | scripts/excalidraw-gen.py:302-303 | a node of layer k > 0 has a predecessor in layer k - 1 |
| Layering.EveryLayerInhabited | scripts/excalidraw-gen.py:302-303 | below an inhabited layer every layer is inhabited |
| LayerOrder.StableSortSorts | scripts/excalidraw-gen.py:340 | the sort gives ascending keys |
| LayerOrder.SortedRowIsUnchanged | scripts/excalidraw-gen.py:340-345 | a row already in order is left as it is, ties included |
| LayerOrder.StableSortKeepsTies | scripts/excalidraw-gen.py:340-345 | nodes with equal keys keep their relative order |
| LayerOrder.GroupRows | scripts/excalidraw-gen.py:325-327 | rows hold each layer's nodes in declaration order |
| LayerOrder.SweepDown | scripts/excalidraw-gen.py:338-342 | rows stay permutations of their layers, and each ends balanced against the row above it |
| LayerOrder.SweepUp | scripts/excalidraw-gen.py:343-346 | the same by successors; in the end every row is balanced against the final row below it, and the last row is not touched |
| LayerOrder.OrderLayers | scripts/excalidraw-gen.py:318-347 | four sweeps leave each row a permutation of its layer; of two nodes of a row with edges into the next, the first has no larger mean head index there; the last row is ordered so by the row above it in the last down sweep |
| Layout.LabelFitsItsBox | scripts/excalidraw-gen.py:352-357 | every line of a label fits inside its box with the padding |
| Layout.StackRows | scripts/excalidraw-gen.py:366-372 | each layer starts a gap after the deepest box of the one before |
| Layout.PlaceRows | scripts/excalidraw-gen.py:374-384 | every node gets the spot of its place in its row, centred in its band |
| Layout.Settle | scripts/excalidraw-gen.py:386-396 | shifting and rounding put the smallest x and y at the margin and keep every box within half a unit of its place |
| Layout.NoOverlap | scripts/excalidraw-gen.py:349-350 | separated rows and layers leave no two boxes overlapping |
| Layout.LayoutHolds | scripts/excalidraw-gen.py:349-396 | from unrounded spots to rounded boxes, layers stay at least 89 apart, neighbours 59 to 61, rows centred |
| Layout.Arrange | scripts/excalidraw-gen.py:349-396 | the whole layout, for every nonempty diagram: longest-path layers, rows ordered by the diagram's own edges, boxes that hold their labels, start at the margin and do not overlap, layers 89 apart and no more than 91 at the closest, every kept edge strictly forward |
| Layout.SingleEdgesDoNotCross | scripts/excalidraw-gen.py:318-347 | in every layout, two edges between neighbouring layers that are the only ones of their tails there do not cross on the page |
| Scene.Spec.Ensure | scripts/excalidraw-gen.py:124-128 | a new node gets the defaults and the last place; a known one is left alone |
| Scene.Spec.SetNode | scripts/excalidraw-gen.py:130-143 | exactly the attributes given before the first unknown one are set, and the error says which it was |
| Scene.Spec.AddEdge | scripts/excalidraw-gen.py:145-148 | the edge is appended, unknown ends are declared source first, known nodes are untouched |
| Scene.Spec.Compile | scripts/excalidraw-gen.py:610-618 | for every nonempty specification the scene built from its layout passes validation and draws exactly the specification, and the arrow of every edge that closes no dropped cycle leads forward across a gap |
| Scene.IdInjective | scripts/excalidraw-gen.py:465-466 | different shapes, texts, arrows, labels and the title have different ids |
| Scene.ArrowRefsComplete | scripts/excalidraw-gen.py:510-511 | a shape lists every arrow at it |
| Scene.ArrowRefsSound | scripts/excalidraw-gen.py:510-511 | and nothing else |
| Scene.WireEdge | scripts/excalidraw-gen.py:481-520 | one edge's in-place appends change two shapes' lists and add the arrow and its label |
| Scene.BuildScene | scripts/excalidraw-gen.py:455-540 | the elements built step by step are those of the specification, title first: each node's shape in its box, each arrow from the middle of its source's far side to the middle of its target's near side and bound to both, each label bound to its arrow, and nothing else |
| Scene.NodeIsWellBound | scripts/excalidraw-gen.py:461-478 | a shape and its text refer to each other |
| Scene.ArrowIsWellBound | scripts/excalidraw-gen.py:498-520 | an arrow's two shapes list it, and it and its label refer to each other |
| Scene.KeptArrowsSpanGap | scripts/excalidraw-gen.py:489-503 | in the scene, the arrow of every edge the layout keeps runs at least 89 forward along the flow axis |
| Scene.SceneIsValid | scripts/excalidraw-gen.py:543-581 | every scene meets every load-critical invariant |
| Scene.Validate | scripts/excalidraw-gen.py:543-581 | the checker accepts exactly the valid element lists |
| SubtaskProtocol.StepMovesRows | agent-runner/conductor_worker.py:50-71 | no step changes a final row except by giving it the next attempt, as pending |
| SubtaskProtocol.StepKeepsConsistent | agent-runner/conductor.py:866-897 | every step keeps the protocol invariant |
| SubtaskProtocol.FinalRowsStayFinal | agent-runner/conductor.py:875-897 | over any run a row that is done, failed, blocked or timed out keeps status and result within its attempt |
| SubtaskProtocol.AppliedResultIsCurrent | agent-runner/conductor_worker.py:63-71 | an applied result overwrites only a running row of its own attempt with all dependencies done; any other changes nothing |
| SubtaskProtocol.DoneIsEarned | agent-runner/conductor_worker.py:71 | every row that became done holds the result its own attempt's worker reported |
| SubtaskProtocol.EveryRunIsOrderly | agent-runner/conductor.py:909-944 | over every interleaving, one dispatch and one applied result per attempt at most |
| SubtaskProtocol.ReplanThenBumpIsRoundStart | agent-runner/conductor.py:1560-1568 | the re-plan write followed by the bump reopens exactly what the protocol's round start reopens |
| SubtaskProtocol.LateResultInTheWindow | agent-runner/conductor.py:1520-1568 | between the two writes a result is applied if and only if its worker's attempt is the current one, and then `done` survives the bump |
| SubtaskProtocol.SplitReplanIsSafeExactly | agent-runner/conductor.py:1520-1568 | the two writes act as one, whatever workers do between them, if and only if no worker of a current attempt still runs |
| SubtaskProtocol.SplitReplanLetsALateResultIn | agent-runner/conductor.py:1520-1568 | a reachable state in which a timed-out worker's result is applied between the writes and kept |
| SubtaskProtocol.SplitResumeIsHarmless | agent-runner/conductor.py:2408-2410 | a result arriving between resume's write and the bump has the effect of one that arrived before the resume |
| SubtaskProtocol.SubtaskTable.StartWorker | agent-runner/conductor_worker.py:32-50 | reading the row and marking it running is the start step, in the dispatched attempt |
| SubtaskProtocol.SubtaskTable.FinishWorker | agent-runner/conductor_worker.py:63-71 | the stale check with the write is the finish step |
| SubtaskProtocol.SubtaskTable.Poll | agent-runner/conductor.py:885-893 | one poll settles a final row untouched, times out an expired one, and otherwise waits on |
| DagExecutor.MissingNeverCompletes | agent-runner/conductor.py:916-918 | a dependency that names no subtask is in no least fixpoint |
| DagExecutor.CyclesNeverComplete | agent-runner/conductor.py:916-918 | no subtask on a dependency cycle ever completes |
| DagExecutor.WaveProgresses | agent-runner/conductor.py:917-944 | a wave starts only subtasks not started before, each after its dependencies |
| DagExecutor.NothingReadyMeansComplete | agent-runner/conductor.py:919-920 | when no wave is left, the done set is the least fixpoint |
| DagExecutor.Mission.RunWave | agent-runner/conductor.py:921-944 | dispatching and waiting settle exactly the wave's rows, each by its fate, and a row is done only for a worker that reported done |
| DagExecutor.Mission.ExecuteDag | agent-runner/conductor.py:909-948 | at most as many waves as subtasks; started are exactly the pending ones whose dependencies complete, once each and after them; each ends with what its worker reported, or in error with the workspace failure or the timeout; the other pending ones are blocked; nothing else changes; and the execution is a run of the protocol |
| DagExecutor.FateIsARun | agent-runner/conductor.py:921-944 | a fate is a run of protocol steps of its subtask alone: a failed dispatch, a report that is applied, or a timeout, and that run leaves the row as the executor has it |
| DagExecutor.ExecutionIsARun | agent-runner/conductor.py:909-948 | from every state that opens a round, the steps of the started subtasks in order, then the blocking of the rest, are a run that ends in the executor's rows |
| DagExecutor.RoundStartOpens | agent-runner/conductor.py:1521-1523 | every round start leaves only pending and done rows, and no worker waiting to start |
| DagExecutor.EveryRoundEndsAsExecuted | agent-runner/conductor.py:909-948 | however dispatches, polls, timeouts and workers of this and earlier attempts interleave, a round that came to rest has the rows the executor computes for the fates met |
| ReplanLoop.Vote | agent-runner/conductor.py:1412-1416 | ships exactly with a strict majority of reviewers, no blocker and no failed gate among those that ran |
| ReplanLoop.AttemptsRiseByRounds | agent-runner/conductor.py:1521-1523 | over any number of rounds an attempt rises at most once per round and never falls |
| ReplanLoop.DoneRowsAreKept | agent-runner/conductor.py:1521-1523 | a done subtask keeps its row as long as another one fails |
| ReplanLoop.Conductor.OpenRound | agent-runner/conductor.py:1521-1523 | exactly the unfinished subtasks go back to pending in the next attempt |
| ReplanLoop.Conductor.Replan | agent-runner/conductor.py:1563-1568 | exactly the failed subtasks become pending, or all when none failed |
| ReplanLoop.Conductor.RunAndVerify | agent-runner/conductor.py:1511-1569 | bounded rounds, each executed with the fates of that round; success exactly when the last round passed; an early stop exactly for a missing workspace or a repeated block; no earlier round passed or was hopeless |
| ReplanLoop.SuccessIsReported | agent-runner/conductor.py:1526-1541 | the loop succeeds only if every subtask that was open in its last round reported done there, and the rows hold those reports |
| ReplanLoop.FailingSubtaskFailsTheMission | agent-runner/conductor.py:1511-1569 | an unfinished subtask that reports done in no round keeps the loop from ever succeeding |
| ReplanLoop.Conductor.Finalize | agent-runner/conductor.py:2277-2306 | finished if and only if the last round passed and filing is not gated; when partial, escalated or gated |
| ReplanLoop.Conductor.ResumeMission | agent-runner/conductor.py:2398-2412 | ended missions and missions without a plan are untouched; others continue from the persisted round and end by the same rules as a fresh one |
| GoalText.GoalsNeverAccumulate | agent-runner/conductor.py:922-929 | after any number of dispatches and failed rounds a goal is the plan plus at most one section of each kind, of bounded length |
| GoalText.ShapedIsBounded | agent-runner/conductor.py:1562-1568 | the plan stays a prefix and the goal never outgrows two sections |
| GoalText.FeedbackSurvivesRedispatch | agent-runner/conductor.py:928-929 | feedback reaches the next dispatch exactly when no upstream section comes first |
| GoalText.DepContext | agent-runner/conductor.py:900-906 | the head of the richest field that is not blank |
| GoalText.ContextIsBounded | agent-runner/conductor.py:924-927 | the upstream text is bounded by the number of dependencies |
| GoalText.ContextHoldsEveryHandoff | agent-runner/conductor.py:924-927 | every dependency's text stands in the section under its key, in order and set off by blank lines |
| GoalText.MissionGoalSurvives | agent-runner/conductor.py:2255-2260 | a mission goal within the limit reaches every rewritten goal word for word |
| JsonScanner.ExtractJson | agent-runner/conductor.py:262-284 | the loop over depth, string and escape flags computes the first balanced object |
| JsonScanner.ValuePasses | agent-runner/conductor.py:268-283 | a value inside an object leaves depth and flags as they were, whatever its strings hold |
| JsonScanner.ExtractsThePrintedObject | agent-runner/conductor.py:262-284 | round trip: for every object, brace-free prefix and any suffix, exactly the printed object is selected |
| JsonScanner.ExtractionIsStable | agent-runner/conductor.py:262-284 | what was found does not change when more text follows |
| JsonScanner.LastShapedJson | agent-runner/conductor.py:696-708 | the object at the last position that parses and has one of the keys, or none when there is no such position |
| JsonScanner.PrintedObjectIsReturned | agent-runner/conductor.py:696-708 | an object with one of the keys, printed after any text and before text without braces, is the one returned exactly when none of that shape is nested in it |
| JsonScanner.VerdictJson | agent-runner/conductor.py:715-722 | a review passes if and only if the last verdict-shaped object says so; everything else fails closed |
| Cooldowns.CountStartsAfterLastTrip | proxy/routing.py:339-345 | the specification counts exactly the failures after the last trip |
| Cooldowns.TripResets | proxy/routing.py:341-343 | a trip is the model's last and empties its count |
| Cooldowns.KeptHitsStaySame | proxy/routing.py:339 | hits dropped as too old never matter again while time does not run back |
| Cooldowns.StepRefines | proxy/routing.py:336-345 | one record trips exactly when the full history has threshold failures in the window since the last trip |
| Cooldowns.CooldownTable.Record | proxy/routing.py:336-345 | the table keeps refining the full history; stored hits stay below the threshold |
| Cooldowns.CooldownTable.Active | proxy/routing.py:347-348 | exactly the models whose last trip is less than a window ago |
| Cooldowns.CooldownTable.InCooldown | proxy/routing.py:350-351 | the same for one model, with the default deadline zero of a model that never tripped |
| Routing.SelectModelIsBest | proxy/routing.py:183-203 | the cheapest entry able to serve, no dearer than the request and not cooling, or else the request |
| Routing.ClassifierModelIsBest | proxy/routing.py:257-292 | the cheapest entry at or above the floor that the transcript fits |
| Routing.BgCeilingCaps | proxy/routing.py:216-229 | what is served costs the lesser of request and ceiling |
| Routing.ShedGoesOneStepDown | proxy/routing.py:295-305 | the dearest of the cheaper entries that are not cooling, or none exactly when there is none |
| Routing.DatedIdFindsItsTier | proxy/routing.py:165-180 | an id that is not in the pool stands for the first entry of the largest tier that it names and the pool has |
| Routing.FindsNothingExactly | proxy/routing.py:165-180 | nothing is found exactly for an empty id and one that is no entry's and names no entry's tier |
| Routing.WorkIsNotBackground | proxy/main.py:342-347 | the session prefixes exclude each other |
| Routing.DecisionNeverDearer | proxy/main.py:459-514 | the first decision never upgrades |
| Routing.BackgroundTurnsAreCapped | proxy/main.py:493-502 | a background session's turn is served at the lesser of its request and the ceiling |
| Routing.ChecksGetTheBestModel | proxy/main.py:477-493 | a permission check is served by the best entry at or above the floor that holds its transcript |
| Routing.OrdinaryTurnsGetTheBestModel | proxy/main.py:503-514 | any other routed turn goes to the best entry for its difficulty, where down-routing is enabled for it |
| Routing.UnroutedIsServedAsAsked | proxy/main.py:503-504 | requests that nothing routes, or whose model is unknown, are served as asked |
| Proxy.TryModel | proxy/main.py:576-602 | one model's attempts: every reply but the last asked for another, in order and within the bound, and failures are recorded |
| Proxy.NonStream | proxy/main.py:563-651 | a falling ladder with at most one revert and no shed after it, within (max_retries+1)·(pool+1) sends; the client gets the status upstream gave to the very last send, or a 502 when that got none; a permission check is told 400 only by the model it asked for |
| Proxy.TryModelStream | proxy/main.py:688-718 | the same for a stream, closing every response but the one kept open |
| Proxy.Stream | proxy/main.py:674-779 | within (max_retries+1)·pool sends; one handle open at most, closed once or handed over; a stream exactly when the last send got a 200, and otherwise its status or a 502 |
| Proxy.SendsBounded | proxy/main.py:574-602 | honest runs of n models make at most n times the attempts |
| Proxy.RetriesAreTheTransientOnes | proxy/main.py:577-602 | one model is tried again exactly after lost connections, 500, 502, 503, 529 and an owned 429, while attempts last |
| Proxy.BodiesNameTheirModels | proxy/main.py:517-526 | every run asks upstream for its own model, and a run of the requested one sends the original bytes |
| Proxy.EveryFailureIsRecorded | proxy/main.py:586-601 | what is recorded over a whole request is every overload status and 429 that upstream gave, once and in order |
| Proxy.RecordsNameTheirModel | proxy/main.py:586-601 | and each is recorded against a model that was tried and got it |
| Proxy.LadderCostsFall | proxy/main.py:630-633 | models are shed in strictly falling cost, none twice |
| Proxy.NonStreamNeverDearer | proxy/main.py:604-633 | across selection, ceiling, pin, shed and revert no model tried costs more than the requested one |
| Proxy.StreamNeverDearer | proxy/main.py:724-733 | the same for streams |
| Proxy.WorkTurnsSendOriginalBytes | proxy/main.py:503-526 | every turn of a work session that is neither a permission check nor deepseek tries the requested model alone, with the original bytes |
| Proxy.DeepseekNeverLeavesItsModel | proxy/main.py:475-476 | a deepseek session tries its forced model alone |
| Ledger.Replay | scripts/agent-ledger.py:106-124 | the in-place loop computes the state of the log |
| Ledger.ReplayKeepsLastWrites | scripts/agent-ledger.py:106-124 | a key is present if brought in after it last went; each field is its last non-null write since then |
| Ledger.ReplayIsGood | scripts/agent-ledger.py:98-124 | over every log each record's own key is the key it is stored under |
| Ledger.CompactedRestores | scripts/agent-ledger.py:262-273 | replaying the compacted log gives the same records, ordered by timestamp |
| Ledger.CompactionIsInvisible | scripts/agent-ledger.py:262-274 | for every log and continuation, the same keys and fields except the event name |
| Ledger.FindLiveFinds | scripts/agent-ledger.py:137-149 | finds a live record with the key or name whenever there is one, by key before by name, and by name the first in dictionary order; the third search is dead |
| Ledger.LookupAfterCompaction | scripts/agent-ledger.py:137-149 | same key after compaction exactly when the key was live or the first match was the oldest |
| Ledger.CompactionCanMoveAName | scripts/agent-ledger.py:262-274 | two spawns under one name and a restore: the name gives one agent before compaction and the other after |
| Ledger.ReapMarksFound | scripts/agent-ledger.py:171-183 | the found record becomes dormant exactly when it has a repo, or the caller named none or its key; the row it is filed under takes checkpoint, transcript and time and keeps its other fields |
| Ledger.ReapCanMissTheAgent | scripts/agent-ledger.py:171-183 | an input on which the reaped agent stays live |
| Ledger.AgentLedger.Spawn | scripts/agent-ledger.py:155-160 | the key is live, given fields written, all others and all other keys kept |
| Ledger.AgentLedger.Restore | scripts/agent-ledger.py:163-168 | the same, so seed and checkpoint survive |
| Ledger.AgentLedger.Reap | scripts/agent-ledger.py:171-183 | nothing is recorded without a live match; with one, the same as above and no other row changes |
| Ledger.AgentLedger.Gone | scripts/agent-ledger.py:186-188 | exactly the record under the repo, or else the name, is removed |
| Ledger.AgentLedger.Reconcile | scripts/agent-ledger.py:213-226 | exactly the live records that neither a window of their pane nor one of their name backs are removed |
| Ledger.AgentLedger.Compact | scripts/agent-ledger.py:262-274 | the rewritten log replays to the same records |
| Vault.DepositKeepsSound | doc-vault/docvault.py:376-411 | deposits keep links, one document per path, distinct gapless version rows, and the shown version among them |
| Vault.ForgettingKeepsSound | doc-vault/docvault.py:1220-1229 | so does forgetting |
| Vault.Store.InsertVersion | doc-vault/docvault.py:384-386 | the insert is refused exactly when number or content is taken for the document |
| Vault.Store.Rewrite | doc-vault/docvault.py:879-914 | new content becomes the next version, an old one is shown again, or the number is taken and nothing changes |
| Vault.Store.AddOrJoin | doc-vault/docvault.py:916-956 | an unknown path joins a document that ever had the content, or starts one |
| Vault.Store.Deposit | doc-vault/docvault.py:847-956 | the four tables and the index change exactly as the status says |
| Vault.Store.Forget | doc-vault/docvault.py:1220-1229 | the document and every row that refers to it are removed |
| Vault.RefusedExactlyWhenBehind | doc-vault/docvault.py:889-897 | refused if and only if the path is known, the content new to it, and its document behind its newest version |
| Vault.KnownPathKeepsItsDoc | doc-vault/docvault.py:865-868 | re-depositing a known path keeps the document and shows the content |
| Vault.DepositAgain | doc-vault/docvault.py:865-929 | a second identical deposit is a duplicate exactly when the first left the content shown |
| Vault.HistoryIsKept | doc-vault/docvault.py:847-956 | over any run without a forget, no version row, origin or tag of a document is altered or removed |
| Vault.PathStaysWithItsDoc | doc-vault/docvault.py:865-868 | over any run a path keeps its document until that is forgotten |
| Vault.EveryRunIsSound | doc-vault/docvault.py:376-411 | from an empty vault the tables are sound after every event |
| Vault.ForgottenPathStartsAfresh | doc-vault/docvault.py:1227-1228 | a deposit from a path of a forgotten document joins another that ever had the content, or else starts at version 1; it never continues, reverts or is refused |
| Vault.RefusalIsReached | doc-vault/docvault.py:879-897 | a, b, a, c deposited at one path of an empty vault: the last is refused |
| Vault.UnwantedRevertIsReached | doc-vault/docvault.py:865-929 | a, b at one path, then a twice at another: the second reverts the document |
| QuoteIndex.BuildIndex | doc-vault/docvault.py:1837-1856 | the collapsed text with a strictly increasing map, as long as the text, to the character each comes from |
| QuoteIndex.StretchIsCollapse | doc-vault/docvault.py:1848-1853 | a stretch of the index that starts solid is the collapse of its raw range |
| QuoteIndex.FindRange | doc-vault/docvault.py:1858-1871 | none exactly when neither the quote nor its first 24 characters occur; a range starts at the first occurrence and covers just that text |
| QuoteIndex.QuotesAreRecognisedExactly | doc-vault/docvault.py:1848-1863 | a quote with solid ends stands collapsed at its place in the index, and is recognised there if and only if it has no white space but what the index collapses |
| QuoteIndex.TakenQuotesAreFound | doc-vault/docvault.py:1858-1871 | every such quote is found in full |
| QuoteIndex.SeparatorsHideQuotes | doc-vault/docvault.py:1861-1868 | a quote of a whole document that is lost for a separator in it |
| QuoteIndex.SeparatorsMisplaceQuotes | doc-vault/docvault.py:1861-1870 | a quote at the start of a document that is found later instead |

## Left out

- Layout works over reals, so float error in text widths before the ceiling is not modelled; Python's rounding is modelled as half to even.
- Scene elements keep id, type, the boxes of shapes and arrows, bindings and `boundElements`; text coordinates, colours, nonces and timestamps are not modelled.
- The diagram's JSON and line-language front ends, and the command line, are not modelled; a diagram has at least one node, which `layout` needs.
- SubtaskProtocol.EveryRunIsOrderly: takes as single steps a worker's stale check with its write, the Conductor's poll with its timeout write, and the re-plan write with the bump, for which `SplitReplanIsSafeExactly` gives the exact condition; resuming takes its write of `pending` with the bump, which `SplitResumeIsHarmless` justifies; the Conductor's loop over all rows is one write in each; a worker starts before its own dispatch is timed out or its mission resumed; subtask rows are never deleted.
- DagExecutor.Mission.ExecuteDag: worker outcomes, workspace errors and timeouts are one arbitrary fate per subtask, and a wave's workers settle one by one; `EveryRoundEndsAsExecuted` covers their interleavings.
- ReplanLoop.Conductor.RunAndVerify: reviewer verdicts and gates are arbitrary inputs per round; worker effort, synthesis, reporting, notifications and the exception path to `failed` are not modelled.
- GoalText.GoalsNeverAccumulate: requires a plan without the two markers; findings are one line of text, as JSON is.
- JsonScanner.LastShapedJson: the JSON library is a parameter; texts are sequences of characters without encoding.
- The plan gate, LLM and SDK calls, git, trackers and chat of the Conductor are not modelled.
- Cooldowns.CooldownTable.Record: requires that time does not run back.
- Proxy.NonStream: requires distinct model ids and a nonempty pool; backoff delays, headers, bodies other than which model they name, logging and prices are not modelled.
- Proxy.Stream: the generator that streams a committed response to the client is one handed-over handle; it closes it once.
- Routing: difficulty classification, token estimates, the search of the body for the marks of a permission check, and the pool file are inputs; lower-casing covers ASCII.
- Ledger: each command is one step on one log; file locks, torn lines and appends that race a compaction are not modelled; timestamps are integers.
- Vault: content is its hash and tables are sets of rows; files on disk, titles, tag derivation, comments, SQL and transactions are not modelled; SQLite's new row id is a parameter. `docs.content_hash` is not unique, because the version migration drops that constraint also for a fresh database.
- QuoteIndex.FindRange: whether a range has client rectangles is not modelled; the text nodes are given in document order.
- The Cloudflare Access check, dashboards, reports, cohort scripts, spikes and search ranking are not modelled.
