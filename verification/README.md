# AlgoTheseus: models and proofs

AlgoTheseus instruments a C++ program, runs it in a sandbox, parses the trace it prints, builds
control-flow graphs from source or trace, and lets a reader step through the trace in the browser.
This project models its deterministic core in Dafny 4.11 and proves what each part is for.

Parts that change state step by step are methods and classes over the same state; each is proved
equal to a function of its inputs or old state, and the theorems are about those functions.

| modules | what they model |
|---|---|
| `Cfg*` | the compiler from statement trees to control-flow graphs, with its pending edges and its break and continue lists |
| `Heap*` | the generated depth-first serializer of pointer structures and the reader that turns its text into a heap table |
| `Trace*` | the browser's trace store: call stack, last-live cache and collapsed step groups under next, prev, jumps and folding |
| `Coord*`, `CacheDisk` | coalescing, lock, poll, two-tier cache and sandbox pool as one transition system over any number of processes; the disk cache's eviction |
| `Parser*` | the three stack simulations, capped cumulative output and run-length compression of the trace parser |
| `DynamicCfg*` | the graph built from a trace alone |
| `PointerSplice`, `PointerTracker` | wrapping allocations and deleted operands by splicing text at offsets |
| `Scope*` | the tables of variables in scope per line |
| `LineDiff`, `DsuGroups`, `Layout*` | line diff, disjoint-set recognition and grouping, connected components and swimlanes |

`dafny verify dfyconfig.toml` checks the whole project. Nothing was executed: the claims are about
the models.

## Where the code is not what its documentation or its callers suggest

- The static graph is exact up to one stutter: an edge from a node to itself is dropped, so a trip
  round a loop whose body shows nothing stands again at the loop header
  (`CfgTheorems.ControlFlowPreserved`).
- The serializer cuts off at depth 50. What counts is the stack of its depth-first search, not the
  number of objects: the table is the object graph exactly if no variable's search gets a stack of
  51 objects with a pointer to follow (`HeapLimit.TableIsTheGraph`, `HeapLimit.RingAndList`).
- The incremental call stack of the store is right exactly on traces whose exits name the function
  and depth of the top frame. The parser's depth recompute gives an exit that unwinds other frames
  the depth of the dead top (`ParserStacks.ExitDepthExact`), so traces with exceptions are outside
  (`TraceStack.StackExact`, `TraceStack.UnwoundStackWrong`).
- With folded groups a cache entry may name another step of the same group than a scan back would;
  the variables are the same. `TraceLag.CacheExact` says on which traces this cannot happen.
- Reading a stored result back applies the output guard again, so results with exit code -25 or 153
  are answered differently from the cache than by the run itself (`CoordTheorems.AnswersExact`,
  `CoordRuns.TransparentExactly`).
- The pool limits slots, not sandboxes: a batch run given up at its timeout frees its slot while the
  sandbox still runs (`CoordRuns.OneGivenUpRunOverflows`). The bound holds without such runs
  (`CoordSafety.PoolBoundsRuns`) and is exceeded by at most their number (`CoordRuns.OverflowBounded`).
- Storing a file larger than the cap empties the disk cache (`CacheDisk.NewFileSurvives`).
- `asParent` accepts arrays on which `find` would not stop, and a value marked as a disjoint set
  reaches it without the gate (`DsuGroups.CycleNeverEnds`, `DsuGroups.GateIsEnough`).
- The parser's stacks disagree exactly when a loop or branch event (for the frames), or any event
  (for the gutter), is the first to run in a frame under another, as after an exception
  (`ParserStacks.DepthsAndFramesAgree`, `ParserStacks.DepthsAndGutterAgree`,
  `ParserNesting.UnwoundDisagrees`).
- The scope tracker's header comment says the innermost variable of a name is shown; its merge keeps
  the outermost, unless the line's own statement declares the name (`ScopeShadow.OuterVariableShown`,
  `ScopeShadow.InnermostAfter`, `ScopeShadow.ShadowedShowsOuter`). A declaration as a braceless body
  of a name not yet in scope is missing from its own line (`ScopeTables.BareDeclarationMissed`).

## Model

| member | source | states |
|---|---|---|
| CfgTheorems.ControlFlowPreserved | backend/app/core/trace/static_cfg.py:277-673 | For every well-formed program, function and list of decisions: the function runs to completion on exactly these decisions showing these statements if and only if the built graph has a walk from its start node to its end node that takes the same decisions and shows the same statements. Standing again at a loop header whose body shows nothing is the only step that is not an edge |
| CfgTheorems.RunsAreWalked | backend/app/core/trace/static_cfg.py:277-673 | Soundness half: every complete run is a walk of the finished graph |
| CfgTheorems.WalksAreRun | backend/app/core/trace/static_cfg.py:277-673 | Completeness half: a start-to-end walk is never a path the program cannot take |
| CfgTheorems.Forced | backend/app/core/trace/static_cfg.py:192-218 | The graph is deterministic: a walk that makes the decisions of a run is that run's trail, node by node, to the end |
| CfgTheorems.LinkSteps | backend/app/core/trace/static_cfg.py:192-214 | Dropping self edges and repeated edges loses no step: every connection asked for can be walked in the edge list, a dropped self edge as a repeated loop header |
| CfgTheorems.StepForced | backend/app/core/trace/static_cfg.py:192-214 | Every step of the edge list takes a choice its node offers, and goes where the connection for that choice goes, so an edge never leads to two places for one choice |
| CfgSimulation.SimStmt | backend/app/core/trace/static_cfg.py:436-673 | Any statement, from any pending edge and on any decisions: the built graph has a trail showing and deciding what the statement does, ending at a pending exit, break, continue, the end node or a stuck decision according to how the statement finished |
| CfgSimulation.SimIf | backend/app/core/trace/static_cfg.py:453-491 | The same for if, with and without an else branch |
| CfgSimulation.SimLoop | backend/app/core/trace/static_cfg.py:493-547 | The same for while, for and range-for over any number of trips, with continues and body exits led back to the header and breaks out |
| CfgSimulation.SimSwitch | backend/app/core/trace/static_cfg.py:618-673 | The same for switch: jump to the label, fall through, skip past when there is no default, breaks out, continues to the enclosing loop |
| CfgSimulation.SimItems | backend/app/core/trace/static_cfg.py:618-673 | Entering a switch body at any child and falling through the rest follows the graph |
| CfgSimulation.SimBody | backend/app/core/trace/static_cfg.py:327-415 | A compound runs as its chain of nodes although neighbouring simple statements are merged into one node |
| CfgSimulation.GroupRuns | backend/app/core/trace/static_cfg.py:352-409 | A merged group shows what its statements show one after the other, in order |
| CfgSemantics.JumpsStayInside | backend/app/core/trace/static_cfg.py:606-616 | In a well-formed statement a break or continue never escapes a construct that does not allow it |
| CfgLinear.StmtConserves | backend/app/core/trace/static_cfg.py:436-673 | Conservation of branches: for every branch of every node, the connections made plus those still pending grow by exactly what came in plus what the new nodes offer. Nothing is connected twice and nothing is dropped |
| CfgLinear.BodyConserves | backend/app/core/trace/static_cfg.py:327-415 | The same for compounds, whatever follows a return, break or continue |
| CfgLinear.LoopConserves | backend/app/core/trace/static_cfg.py:493-547 | The same for loops: breaks and the header's false branch leave, continues and body exits are all used up |
| CfgLinear.SwitchConserves | backend/app/core/trace/static_cfg.py:618-673 | The same for switch, default label or not |
| CfgShape.StmtGrows | backend/app/core/trace/static_cfg.py:436-673 | Building only ever adds nodes with new ids and connections between known nodes; pending edges name nodes that exist |
| CfgShape.FunctionGrows | backend/app/core/trace/static_cfg.py:277-325 | A built function keeps everything built before it, and its start and end nodes are there under the ids taken at its start |
| CfgUnique.LinkedOnce | backend/app/core/trace/static_cfg.py:192-218 | In a finished graph no branch of a node is connected twice, so the guard against repeated edges never drops one that matters |
| CfgUnique.SameLink | backend/app/core/trace/static_cfg.py:192-214 | Two connections of one branch are the same connection |
| CfgUnique.AllSettled | backend/app/core/trace/static_cfg.py:220-325 | After all functions every branch a node offers is connected exactly once and no jump is left pending |
| CfgCoverage.EveryNodeOnAWalk | backend/app/core/trace/static_cfg.py:277-673 | Every node of every well-formed function lies on some walk from its start node to its end node |
| CfgCoverage.NodeOnAWalk | backend/app/core/trace/static_cfg.py:277-325 | The same for one function inside any finished graph that contains it |
| CfgCoverage.StmtReached | backend/app/core/trace/static_cfg.py:436-673 | If all incoming pending edges can be reached from the start, so can every new node and every outgoing pending edge |
| CfgCoverage.StmtFinishes | backend/app/core/trace/static_cfg.py:436-673 | If everything a statement leaves pending can reach the end, so can everything that came in and every new node |
| CfgBuilder.StaticCFGBuilder.AddEdge | backend/app/core/trace/static_cfg.py:192-214 | The edge list stays the connections asked for, in order, without self edges and without repeats |
| CfgBuilder.StaticCFGBuilder.ConnectPending | backend/app/core/trace/static_cfg.py:216-218 | Every pending edge is connected to the target under its own label and handles |
| CfgBuilder.StaticCFGBuilder.PlaceNode | backend/app/core/trace/static_cfg.py:182-218 | One node with the next id, entered from everything pending, and nothing else changed |
| CfgBuilder.StaticCFGBuilder.BuildStatement | backend/app/core/trace/static_cfg.py:436-710 | The recursive builder over mutable node, edge, break and continue lists leaves exactly the graph and lists of the structural compiler about which the theorems are proved |
| CfgBuilder.StaticCFGBuilder.BuildIfStmt | backend/app/core/trace/static_cfg.py:453-491 | The same for if |
| CfgBuilder.StaticCFGBuilder.BuildLoopStmt | backend/app/core/trace/static_cfg.py:493-547 | The same for loops: break and continue lists are the loop's own |
| CfgBuilder.StaticCFGBuilder.Latch | backend/app/core/trace/static_cfg.py:533-541 | Exits are led back to the header under the tag the back edge shows: kept for a continue, blank where a nested loop ends |
| CfgBuilder.StaticCFGBuilder.BuildSwitchStmt | backend/app/core/trace/static_cfg.py:618-673 | The same for switch: the break list is its own, the continue list the enclosing loop's |
| CfgBuilder.StaticCFGBuilder.BuildCases | backend/app/core/trace/static_cfg.py:618-665 | The loop over a switch body, carrying the fall-through edges from child to child |
| CfgBuilder.StaticCFGBuilder.BuildCompoundStmt | backend/app/core/trace/static_cfg.py:327-415 | The loop over a compound with its nested grouping loop |
| CfgBuilder.StaticCFGBuilder.BuildGroupNode | backend/app/core/trace/static_cfg.py:352-409 | A call to a user function gets a node of its own; otherwise the loop merges up to three simple statements, each within three lines of the one before, into one node, or into none when no line is known |
| CfgBuilder.StaticCFGBuilder.BuildFunctionBody | backend/app/core/trace/static_cfg.py:277-325 | Start and end ids are taken first; the end node is placed last and joined to every exit |
| CfgBuilder.StaticCFGBuilder.Build | backend/app/core/trace/static_cfg.py:220-275 | All functions in order, the edge list being that of all connections |
| HeapLimit.TableIsTheGraph | backend/app/core/instrumenter/serializer_gen.py:327-397 | For any object graph of scalar and pointer fields, cycles and sharing included, and any variables: the extracted table has exactly one entry per live object some variable reaches, each with its shape, address, scalar fields and every pointer field a reference to its target, if and only if no variable's unlimited depth-first search gets a stack of more than 50 objects, the top pointing to a live one, among the objects it is the first to reach |
| HeapLimit.MarkerExact | backend/app/core/instrumenter/serializer_gen.py:333 | The text of a variable has a depth marker if and only if the unlimited search, which depends on the graph and the order of fields only, goes that deep |
| HeapLimit.ShortPathsAreShallow | backend/app/core/instrumenter/serializer_gen.py:333 | Simple paths of at most 50 live objects from every variable are enough, however many objects there are |
| HeapDepth.TooDeepPath | backend/app/core/instrumenter/serializer_gen.py:333-353 | The stack of a search that goes too deep is a simple path of more than 50 live objects from the root |
| HeapDepth.FewObjectsFit | backend/app/core/instrumenter/serializer_gen.py:333 | At most 50 reachable objects make short paths |
| HeapLimit.RingAndList | backend/app/core/instrumenter/serializer_gen.py:333 | The number of objects does not decide: a ring of 51 goes too deep, a list of 51 does not |
| HeapLimit.RingCutShort | backend/app/core/instrumenter/serializer_gen.py:333 | In the text of the ring of 51 a pointer is printed as a depth marker |
| HeapLimit.CutObject | backend/app/core/trace/parser.py:435-495 | Reading back an object whose search goes too deep leaves a new entry in which a pointer to a live object stands among the plain values |
| HeapTheorems.ShallowIsRight | backend/app/core/instrumenter/serializer_gen.py:327-397 | The positive half, by induction over the variables |
| HeapTheorems.NoUnknown | backend/app/core/trace/parser.py:406-432 | For such variables and with nothing freed, no reference of the extracted table is marked unknown: each leads to an entry |
| HeapTheorems.Resolved | backend/app/core/trace/parser.py:418-432 | Marking dangling references turns the table into the graph: exactly the pointers to freed objects become unknown |
| HeapOnce.PrintedOnce | backend/app/core/instrumenter/serializer_gen.py:327-370 | Limit or not, one call anywhere in the traversal prints in full exactly the objects it newly emits, each once |
| HeapOnce.VariablePrintsOnce | backend/app/core/instrumenter/serializer_gen.py:373-397 | The text of a variable whose search does not go too deep prints in full each object it reaches once, and no other object |
| HeapWalk.PrintGrows | backend/app/core/instrumenter/serializer_gen.py:327-370 | Limit or not, a call keeps all ids and all that was emitted, emits nothing that is being visited and gives an id to all it emits |
| HeapWalk.PrintExplores | backend/app/core/instrumenter/serializer_gen.py:327-370 | While the limit stays out of it, a call emits what the unlimited search finds, and that is closed under pointers up to what is still being visited |
| HeapWalk.PrintsReach | backend/app/core/instrumenter/serializer_gen.py:373-397 | From empty visited and emitted sets exactly the reachable objects are emitted |
| HeapWalk.StaysInside | backend/app/core/instrumenter/serializer_gen.py:343-366 | Printing never leaves a closed set it starts in |
| HeapRoundTrip.ReadObject | backend/app/core/trace/parser.py:435-455 | Reading back what one call printed completes the entries of everything it emitted, keeps all others and yields the object's id, whether printed in full or as a reference |
| HeapRoundTrip.ReadAgain | backend/app/core/trace/parser.py:435-455 | An object that an earlier variable left in the table changes nothing when printed again, however deep it goes |
| HeapModel.ReachClosed | backend/app/core/instrumenter/serializer_gen.py:343-353 | What is reachable is closed under following pointers to live objects |
| HeapModel.ReachLeast | backend/app/core/instrumenter/serializer_gen.py:343-353 | It is the least such set, so reachability by paths is the right specification |
| HeapRoundTrip.ReadNew | backend/app/core/trace/parser.py:468-495 | An object printed in full is registered as a placeholder, so references back to it stop there, and becomes its finished entry |
| HeapObjects.SerializerRuntime.HeapIdFor | backend/app/core/instrumenter/serializer_gen.py:55-63 | An address keeps its id for the whole program; a new one gets the next number |
| HeapObjects.SerializerRuntime.Object | backend/app/core/instrumenter/serializer_gen.py:327-370 | The emitted routine, inserting into and erasing from shared sets while it recurses, prints the text of the specification, leaves the visited set as it was and the emitted set grown by what it printed |
| HeapObjects.SerializerRuntime.Members | backend/app/core/instrumenter/serializer_gen.py:343-362 | The fields in order, sharing ids and sets |
| HeapObjects.SerializerRuntime.Member | backend/app/core/instrumenter/serializer_gen.py:344-362 | One field: null, freed, unreadable, nested object or scalar |
| HeapObjects.SerializerRuntime.Variable | backend/app/core/instrumenter/serializer_gen.py:373-397 | A variable starts from fresh sets and depth 0 |
| HeapObjects.SerializerRuntime.Variables | backend/app/core/instrumenter/serializer_gen.py:55-63 | The variables of a state in order, sharing only the ids |
| HeapObjects.HeapTable.WalkValue | backend/app/core/trace/parser.py:435-455 | The recursive reader, filling one table in place, leaves the table of the specification |
| HeapObjects.HeapTable.BuildEntry | backend/app/core/trace/parser.py:468-495 | One entry from an object's members, nested objects being put into the same table |
| HeapObjects.HeapTable.WalkPair | backend/app/core/trace/parser.py:477-491 | One member is walked before it is sorted into fields or references |
| HeapObjects.HeapTable.ExtractFrom | backend/app/core/trace/parser.py:406-432 | All variables are walked and then references that lead nowhere are marked |
| TraceStack.StackExact | frontend/src/store/traceStore.ts:417-540 | After loading, the incrementally maintained call stack equals the recomputed one, by function and depth, after every list of user actions if and only if each exit event names the function and depth of the frame on top |
| TraceStack.BalancedStackRight | frontend/src/store/traceStore.ts:441-540 | On such a trace the stack stays right from any step, with any groups folded or open |
| TraceStack.UnbalancedStackWrong | frontend/src/store/traceStore.ts:54-77 | On any other trace two jumps are enough to show a wrong stack: past the unmatched exit and back |
| TraceStack.UnwoundStackWrong | frontend/src/store/traceStore.ts:54-77 | A trace that is not so: an exception leaves a callee and the caller's exit carries the callee's depth |
| TraceLag.CacheExact | frontend/src/store/traceStore.ts:417-560 | After loading, whatever the user does, the entry of the current event's frame is the very snapshot, step number included, that a scan back from the current step finds, if and only if every group with a live step behind its first is followed in its frame by a live event or by none, and begins live or right after an event of its frame |
| TraceLag.LagsAhead | frontend/src/store/traceStore.ts:441-485 | Where a group is followed in its frame by an event that is not live: folding it, jumping to its start and pressing next up to that event shows the lag |
| TraceLag.LagsBehind | frontend/src/store/traceStore.ts:488-547 | Where a group begins not live, behind another frame: folding it, jumping inside, pressing prev and then next shows the entry of a later step |
| TraceCache.CacheRightWhereRead | frontend/src/store/traceStore.ts:417-540 | After loading and any actions, the lazily patched cache holds for the current event's frame the variables a scan back from the current step finds, although entries of other frames may point into the future; the step number is right too on the traces above, or if next and prev were pressed with all groups open |
| TraceCache.ActionKeeps | frontend/src/store/traceStore.ts:417-560 | Each action keeps the invariant from which that follows: each frame's entry is right now, or will be right or replaced at that frame's next event |
| TraceCache.FoldedStepLags | frontend/src/store/traceStore.ts:441-485 | The smallest example: pressing next over two folded equal states shows the variables with the step of the first |
| TraceModel.CacheIsLastLive | frontend/src/store/traceStore.ts:96-109 | Scanning forward into a map and scanning back for one frame find the same snapshot, for every frame |
| TraceModel.FrameKeyInjective | frontend/src/utils/scopeDisplay.ts:67-69 | Two frames never share a key text, whatever characters function names have |
| TraceGroups.GroupsAreMaximalRuns | frontend/src/store/traceStore.ts:203-259 | The groups are exactly the maximal runs of two or more steps of equal display key, ascending and apart from each other |
| TraceGroups.GroupShowsOne | frontend/src/store/traceStore.ts:149-184 | All steps of a group are of one frame and show the same variables |
| TraceOrder.NextIsLeast | frontend/src/store/traceStore.ts:441-485 | From any step next goes to the least later step that is not inside a folded group, or stays if there is none |
| TraceOrder.PrevIsGreatest | frontend/src/store/traceStore.ts:488-512 | From any step prev goes to the greatest earlier step that is not inside a folded group short of its end, or stays if there is none |
| TraceOrder.NextVisitsAllShown | frontend/src/store/traceStore.ts:441-485 | Pressing next from step 0 until it stays visits exactly the steps outside every folded group's (start, end], in ascending order |
| TraceOrder.PrevVisitsAllShown | frontend/src/store/traceStore.ts:488-540 | Pressing prev from the last step visits exactly the steps outside every folded group's [start, end), in descending order |
| TraceOrder.EveryStepVisited | frontend/src/store/traceStore.ts:441-540 | With all groups open, next from the first step visits 0, 1, 2 and so on to the last, and prev from the last visits them all backwards |
| TraceOrder.NothingHidden | frontend/src/store/traceStore.ts:263-275 | With all groups open nothing is hidden either way |
| TraceStore.ApplyEvent | frontend/src/store/traceStore.ts:54-77 | Pushing, splicing and popping a copy does what doing or undoing the event does to the stack |
| TraceStore.RebuildCallStack | frontend/src/store/traceStore.ts:81-90 | The recomputed stack is that of all events up to the step |
| TraceStore.BuildLiveCache | frontend/src/store/traceStore.ts:96-109 | The cache built by one forward loop, shown elsewhere to be the last live snapshot per frame |
| TraceStore.FindLastLiveSnapshot | frontend/src/utils/scopeDisplay.ts:98-112 | The backward loop finds the last live snapshot of the frame at or before the step, or none |
| TraceStore.DisplayKeys | frontend/src/store/traceStore.ts:203-228 | One running map gives each step the key that a scan strictly before it gives |
| TraceStore.GroupRuns | frontend/src/store/traceStore.ts:229-259 | The second loop collects the runs of equal keys |
| TraceStore.RebuildCompression | frontend/src/store/traceStore.ts:203-259 | Both passes together give the groups of the trace |
| TraceStore.FindGroup | frontend/src/store/traceStore.ts:263-275 | The folded group a step is in, if any |
| TraceStore.PatchBack | frontend/src/store/traceStore.ts:512-532 | Landing backwards writes the landed frame's entry from the event or from a scan back, or deletes it |
| TraceStore.TraceStore.LoadTrace | frontend/src/store/traceStore.ts:342-355 | The store is the freshly loaded state of the trace with all groups folded |
| TraceStore.TraceStore.AppendEvent | frontend/src/store/traceStore.ts:359-385 | While streaming, stack and cache follow the newest event and the step stays |
| TraceStore.TraceStore.StreamComplete | frontend/src/store/traceStore.ts:387-401 | Whatever happened while streaming, the finished stream is as if loaded in one piece |
| TraceStore.TraceStore.SetStep | frontend/src/store/traceStore.ts:417-439 | The fields after a jump are those of the specified action, out-of-range steps clamped |
| TraceStore.TraceStore.Next | frontend/src/store/traceStore.ts:441-485 | The fields after next are those of the specified action |
| TraceStore.TraceStore.Prev | frontend/src/store/traceStore.ts:488-547 | The fields after prev are those of the specified action |
| TraceStore.TraceStore.ToggleExpand | frontend/src/store/traceStore.ts:554-560 | Folding and opening change only the list of open groups |
| CoordResult.ReloadExact | backend/app/api/routes/execute.py:593-618 | Storing and reloading a result gives it back if and only if it has no compile error and its exit code is not one of the output guard's |
| CoordResult.AppendedChanges | backend/app/core/executor/docker_runner.py:109-118 | Appending the guard's message and stripping never gives the text back, which is why reloading such a result always differs |
| CoordTheorems.AnswersExact | backend/app/api/routes/execute.py:429-570 | In every reachable world of any number of processes, an answered request's result equals the sandbox's result for its key if and only if it was no cache hit or the exit code is not one of the guard's; leader, waiter, poll and cache hit alike |
| CoordRuns.TransparentExactly | backend/app/api/routes/execute.py:429-618 | Every answer in every reachable world is the sandbox's own result for its key, if and only if no key has a storable result with an exit code of the output guard |
| CoordRuns.HitAnswers | backend/app/api/routes/execute.py:729-744 | A warm cache and one request: it is answered with the reloaded form of the stored result |
| CoordTheorems.OneFlight | backend/app/api/routes/execute.py:429-455 | At most one request of a process leads for a key |
| CoordTheorems.WaitersHaveALeader | backend/app/api/routes/execute.py:429-455 | Nobody waits on a flight that nobody flies: it is settled, or its leader, of the same process and key, is still at work |
| CoordTheorems.OutcomeStays | backend/app/api/routes/execute.py:442-451 | A flight's outcome is written once |
| CoordTheorems.WaitersShareTheOutcome | backend/app/api/routes/execute.py:440-451 | Over whole runs a waiter ends with its flight's outcome, answer or error, unless it was cancelled itself |
| CoordTheorems.RunKeeps | backend/app/api/routes/execute.py:429-570 | Answers, flights, pools and locks stay right over every run of enabled steps |
| CoordAnswers.StepRight | backend/app/api/routes/execute.py:547-570 | Each step keeps caches, flights and answers tied to the sandbox's result for their key |
| CoordFlights.StepFlying | backend/app/api/routes/execute.py:429-455 | Each step, cancellation included, keeps leaders, the in-flight table and outcomes consistent |
| CoordPool.StepFits | backend/app/api/routes/execute.py:327-357 | Each step keeps free slots plus held slots equal to the pool's size |
| CoordLocks.StepGood | backend/app/api/routes/execute.py:487-533 | Each step keeps every unexpired lease the one lock under its own token |
| CoordLocks.CompareDeleteIs | backend/app/api/routes/execute.py:473-475 | The atomic release changes nothing but removes the key's lock if it is under the token |
| CoordSafety.PoolExact | backend/app/api/routes/execute.py:327-357 | In every reachable world free slots, slots of batch work and slots held by requests add up to the pool's size; sandboxes left behind by requests that gave up are what can exceed it |
| CoordSafety.PoolBoundsRuns | backend/app/api/routes/execute.py:349-357 | If no request gave up on a running sandbox, the pool bounds the sandboxes running at all times |
| CoordRuns.OverflowBounded | backend/app/api/routes/execute.py:1137-1149 | On every run the sandboxes running exceed the pool by at most the number of requests that gave up |
| CoordRuns.OneGivenUpRunOverflows | backend/app/api/routes/execute.py:1137-1149 | For every pool size there is a run from an idle process, with one request given up at its timeout, after which more sandboxes run than the pool has slots |
| CoordSafety.GivenUpRunOverflows | backend/app/api/routes/execute.py:1137-1149 | From any reachable world with a full pool: a batch run given up gives its slot back while its sandbox goes on, and the next taker makes one more than the pool's size |
| CoordSafety.OneHolder | backend/app/api/routes/execute.py:487-506 | Over all processes at most one request holds an unexpired lock for a key |
| CoordSafety.DoubleRunsExplained | backend/app/api/routes/execute.py:547-570 | Two running requests of one key are in different processes, and one of them runs without a lock or has outlived it |
| CoordSafety.OnlyOwnLockGoes | backend/app/api/routes/execute.py:509-533 | No step takes away or overwrites an unexpired lock except the release under its own token |
| CoordSafety.LeaderCanSettle | backend/app/api/routes/execute.py:536-570 | From any point a leader can settle its flight by its own steps and waiting, leaving all others where they are |
| CoordSafety.WaitersCanFinish | backend/app/api/routes/execute.py:440-455 | No deadlock: in every reachable world a waiting request can still get its flight's outcome |
| CacheDisk.EvictsOldest | backend/app/core/executor/cache.py:208-225 | What is kept fits; nothing goes when all fitted; otherwise the kept files are the newest ones, in the sense that only older files went and keeping one more would not have fitted |
| CacheDisk.SurvivorsAre | backend/app/core/executor/cache.py:214-223 | The loop with its running total keeps the longest newest part that fits |
| CacheDisk.NewFileSurvives | backend/app/core/executor/cache.py:190-206 | A file younger than all others, wherever the directory lists it, survives its own eviction if and only if it fits alone; one that does not fit empties the whole cache |
| CacheDisk.ByAgeIs | backend/app/core/executor/cache.py:215 | Sorting by age loses and repeats no file, and ascends |
| CacheDisk.DiskLRUCache.Get | backend/app/core/executor/cache.py:158-188 | A hit is whole and not stale and counts as a use; a corrupt or stale entry is deleted and missed |
| CacheDisk.DiskLRUCache.Put | backend/app/core/executor/cache.py:190-206 | The entry replaces its key's, newest, wherever the directory lists it, and then the oldest go until the rest fit |
| CacheDisk.DiskLRUCache.Evict | backend/app/core/executor/cache.py:208-225 | The loop deletes exactly what the specification evicts |
| LineDiff.ColumnsAreTheTexts | frontend/src/utils/diff.ts:27-92 | The left column read top to bottom is the expected text and the right column the actual text |
| LineDiff.EqualRowsAreLongest | frontend/src/utils/diff.ts:34-91 | The lines shown as equal are a common subsequence of both texts and no common subsequence is longer |
| LineDiff.DiffIsMinimal | frontend/src/utils/diff.ts:27-92 | No script turning one text into the other changes fewer lines |
| LineDiff.LcsIsUpperBound | frontend/src/utils/diff.ts:38-46 | The table's entry bounds every common subsequence of the two prefixes |
| LineDiff.ScriptKeepsLcs | frontend/src/utils/diff.ts:54-84 | Backtracking, ties included, keeps exactly as many equal rows as the table's last entry |
| LineDiff.ScriptIsScript | frontend/src/utils/diff.ts:54-91 | The rows form a script: line numbers on each side are consecutive from 1 |
| LineDiff.ScriptReads | frontend/src/utils/diff.ts:54-91 | Both sides of any script read in full |
| LineDiff.JoinSplit | frontend/src/utils/diff.ts:28-29 | Splitting at newlines loses nothing |
| LineDiff.FillTable | frontend/src/utils/diff.ts:36-46 | The nested loops fill the table in place with the longest-common-subsequence lengths of all prefixes |
| LineDiff.Backtrack | frontend/src/utils/diff.ts:50-84 | The stack built from the last corner holds the rows in reverse |
| LineDiff.ComputeLineDiff | frontend/src/utils/diff.ts:27-92 | The result is the diff about which the lemmas are proved; empty texts have no lines |
| LineDiff.CountChanges | frontend/src/utils/diff.ts:98-106 | The numbers of added and of removed rows |
| DsuGroups.EndsSoon | frontend/src/hooks/useContainerType.ts:73-81 | By pigeonhole, a parent chain of n entries that reaches a root at all does so within n - 1 steps |
| DsuGroups.Pigeonhole | frontend/src/hooks/useContainerType.ts:73-81 | Among the first n + 1 ancestors one comes twice |
| DsuGroups.EndsWithinHops | frontend/src/hooks/useContainerType.ts:73-81 | The n-hop loop passes if and only if the chain reaches a fixed point at some length |
| DsuGroups.IsDsuLike | frontend/src/hooks/useContainerType.ts:67-95 | The gate accepts exactly the parent and rank arrays of forests: all chains end, ranks bounded, at least one merge, lone roots of rank 0 |
| DsuGroups.ChildCounts | frontend/src/hooks/useContainerType.ts:87-88 | The counting loop gives each node the number of entries that name it |
| DsuGroups.Find | frontend/src/components/ContainerVisuals/DSUVisual.tsx:20-24 | The loop to the root terminates on every array whose chains end, and finds the chain's root |
| DsuGroups.GroupsOf | frontend/src/components/ContainerVisuals/DSUVisual.tsx:19-36 | The groups, in order of first member, are the indices by root, each ascending |
| DsuGroups.GroupsPartition | frontend/src/components/ContainerVisuals/DSUVisual.tsx:19-36 | Every index is in exactly one group, and two share one if and only if their chains end at the same root |
| DsuGroups.GateIsEnough | frontend/src/hooks/useContainerType.ts:67-95 | Whatever the gate accepts can be grouped |
| DsuGroups.CycleNeverEnds | frontend/src/components/ContainerVisuals/DSUVisual.tsx:8-16 | The shape test alone is not enough: it accepts a two-cycle, whose chain has no root at any length |
| ParserStacks.DepthsAndFramesAgree | backend/app/core/trace/parser.py:84-108 | The depth recompute and the frame stacks hold the same functions at every step if and only if no loop or branch event is the first sign of an exception |
| ParserStacks.DepthsAndGutterAgree | backend/app/core/trace/parser.py:149-195 | The depth recompute and the gutter's stack agree at every step if and only if no event runs in a frame buried under another |
| ParserStacks.FramesAreOrdered | backend/app/core/trace/parser.py:208-272 | At every step frame ids increase from bottom to top and depths count the frames below |
| ParserStacks.CallerUntouched | backend/app/core/trace/parser.py:208-272 | While a callee is on the stack, nothing that happens changes a frame below it |
| ParserStacks.CallerRestored | backend/app/core/trace/parser.py:208-272 | After a callee's exit the caller has the very frames, variables included, it had before the call |
| ParserStacks.EnterDepth | backend/app/core/trace/parser.py:87-89 | An enter carries the height its frame gets |
| ParserStacks.ExitDepthExact | backend/app/core/trace/parser.py:90-99 | An exit removes its frame and all above, and carries its frame's depth if and only if that frame is on top |
| ParserStacks.ExitMatchesItsEnter | backend/app/core/trace/parser.py:90-99 | With the stacks in agreement an exit on top carries the depth of the frame on top |
| ParserNesting.ExitHasEnterDepth | backend/app/core/trace/parser.py:84-108 | Wherever a well-nested call stands in a trace, its exit is written at the depth written on its enter, the stack is the same before and after, and nothing in it runs in a buried frame |
| ParserNesting.NestedTracesAgree | backend/app/core/trace/parser.py:84-272 | On every well-nested trace, defined without a stack, the three stacks hold the same functions at every step |
| ParserNesting.UnwoundDisagrees | backend/app/core/trace/parser.py:84-272 | A trace where they do not: an exception whose first sign is a branch in the caller |
| ParserStacks.RecomputeDepths | backend/app/core/trace/parser.py:84-108 | The loop over one mutable stack writes the specified depth on every event |
| ParserStacks.ApplyEvent | backend/app/core/trace/parser.py:229-268 | One event on the stack of frames, with the cut of dead frames |
| ParserStacks.FramesAtStep | backend/app/core/trace/parser.py:208-272 | One stack per event, as the specification gives it after that event |
| ParserStacks.LastIndex | backend/app/core/trace/parser.py:98 | Searching the reversed list finds the topmost occurrence |
| ParserStdout.CapIsLongestPrefix | backend/app/core/trace/parser.py:498-503 | The capped text is the longest prefix whose UTF-8 form (section 3 of RFC 3629) fits in 65536 bytes, and the flag is set if and only if something was cut |
| ParserStdout.CutDecodes | backend/app/core/trace/parser.py:503 | Cutting the bytes anywhere and decoding with incomplete characters ignored gives exactly the characters that fit |
| ParserStdout.DecodeEncode | backend/app/core/trace/parser.py:500-503 | Decoding a character's bytes gives it back, its length known from its first byte |
| ParserStdout.CapExtends | backend/app/core/trace/parser.py:498-503 | What is shown of a longer output extends what is shown of a shorter one |
| ParserStdout.OutputIsCumulative | backend/app/core/trace/parser.py:534-546 | Two states that carry output: the later extends the earlier, each is a prefix of all output so far and flagged as cut if and only if it is a proper one |
| ParserStdout.LastStateCarries | backend/app/core/trace/parser.py:528-531 | The last state carries the output however long the trace |
| ParserStdout.IterEdges | backend/app/core/trace/parser.py:521-527 | The two maps give exactly the first and last loop event of each line |
| ParserStdout.Boundary | backend/app/core/trace/parser.py:528-532 | In a long trace exactly the states next to such an event, and the last state, are boundary states |
| ParserStdout.ApplyIncrementalStdout | backend/app/core/trace/parser.py:506-550 | Nothing is touched when no event has output; otherwise every state is set as specified and other events are left alone |
| ParserCompress.CompressionLossless | backend/app/core/trace/parser.py:570-617 | The kept events' ranges tile the list, and expanding each by its count gives the trace back up to what the compare key leaves out |
| ParserCompress.KeptApart | backend/app/core/trace/parser.py:587-598 | No two neighbouring kept states are equal under the compare key, in which the order of dictionary keys plays no part |
| ParserCompress.CompressTwice | backend/app/core/trace/parser.py:570-617 | Compressing the result merges nothing more |
| ParserCompress.StripTwice | backend/app/core/trace/parser.py:620-644 | Values without addresses are a normal form: removing addresses twice removes no more than once |
| ParserCompress.CompressStateEvents | backend/app/core/trace/parser.py:570-617 | The two index loops give the specified groups with their ranges |
| DynamicCfg.TraceConserved | backend/app/core/trace/cfg_builder.py:57-242 | For every trace: each event is in exactly one node's list; lists ascend; a line node's have no gap; ids are the nodes' places; edges join exactly consecutive nodes in order; each child id names a node of the graph |
| DynamicCfg.StatesShare | backend/app/core/trace/cfg_builder.py:163-196 | Two states in a row share a node if and only if they are of one function and at most three lines apart |
| DynamicCfg.IterationsShare | backend/app/core/trace/cfg_builder.py:215-238 | Two loop events share a node if and only if they are of one function and line |
| DynamicCfg.BuiltGood | backend/app/core/trace/cfg_builder.py:109-240 | All this and the tables that lead to it hold after every prefix of the trace |
| DynamicCfgBuilder.Builder.FlushLineNode | backend/app/core/trace/cfg_builder.py:88-95 | The open run of states becomes a node with its edge and the graph stays the same |
| DynamicCfgBuilder.Builder.AddToCurrentLoop | backend/app/core/trace/cfg_builder.py:97-101 | Exactly the current loop's child list grows |
| DynamicCfgBuilder.Builder.HandleState | backend/app/core/trace/cfg_builder.py:163-196 | A state joins the open node or closes it and opens the next |
| DynamicCfgBuilder.Builder.AddEnter | backend/app/core/trace/cfg_builder.py:112-139 | An enter starts a function, or a recursive call while one of that name is active |
| DynamicCfgBuilder.Builder.AddExit | backend/app/core/trace/cfg_builder.py:141-161 | An exit ends the loop and one activation |
| DynamicCfgBuilder.Builder.AddBranch | backend/app/core/trace/cfg_builder.py:198-213 | A branch node hangs off its predecessor by the outcome's tag and belongs to the current loop |
| DynamicCfgBuilder.Builder.AddLoop | backend/app/core/trace/cfg_builder.py:218-233 | The first event of a header makes the loop node |
| DynamicCfgBuilder.Builder.CountIteration | backend/app/core/trace/cfg_builder.py:234-238 | A later one is added to that node and to no other |
| DynamicCfgBuilder.Builder.Handle | backend/app/core/trace/cfg_builder.py:109-238 | One turn of the loop makes the specified step |
| DynamicCfgBuilder.Build | backend/app/core/trace/cfg_builder.py:73-242 | Nodes and edges of the whole trace are those of the specification |
| PointerTracker.TrackPointerLifetimes | backend/app/core/instrumenter/pointer_lifetime.py:11-45 | For any tree whose allocations and deleted operands nest, whatever the extents of its other nodes: visiting, collecting insertions per offset and splicing them returns the source with every one of them wrapped around its own wrapped text |
| PointerSplice.TrackingWraps | backend/app/core/instrumenter/pointer_lifetime.py:20-45 | The pre-order visit, which records a deleted operand before its earlier siblings, splices to the recursively wrapped text |
| PointerSplice.VisitRecordsWraps | backend/app/core/instrumenter/pointer_lifetime.py:24-40 | The visit collects at every offset the insertions that the tree of wraps asks for |
| PointerSplice.WrapsInside | backend/app/core/instrumenter/pointer_lifetime.py:34-40 | It is enough for the wraps to nest that all visited extents do |
| PointerSplice.SplicingWraps | backend/app/core/instrumenter/pointer_lifetime.py:42-45 | Any nested wraps, adjacent ones and shared ends included: splicing per offset equals wrapping each node recursively |
| PointerSplice.StretchRenders | backend/app/core/instrumenter/pointer_lifetime.py:42-45 | The same for any stretch of the source between two offsets |
| PointerTracker.SourceRecovered | backend/app/core/instrumenter/pointer_lifetime.py:43-44 | Deleting the inserted text gives back the source, whatever was inserted |
| PointerTracker.PointerTracker.Wrap | backend/app/core/instrumenter/pointer_lifetime.py:20-22 | The opening goes behind what is inserted at the start, the closing in front of what is inserted at the end, and no other offset changes |
| PointerTracker.PointerTracker.Visit | backend/app/core/instrumenter/pointer_lifetime.py:24-40 | The recursion over shared insertions records what the pre-order specification records |
| PointerTracker.PointerTracker.Splice | backend/app/core/instrumenter/pointer_lifetime.py:43-44 | Splicing from the highest offset down gives each offset its insertions at its place in the source |
| ScopeTables.NamesBefore | backend/app/core/instrumenter/scope_tracker.py:234-249 | The row before a line has exactly the names whose C++ block scope covers the first statement on the line, each once |
| ScopeTables.NamesAfter | backend/app/core/instrumenter/scope_tracker.py:251-269 | The row after a line has exactly the names that one of its statements has in scope or declares, bare bodies apart, and the main row is always the same |
| ScopeTables.BareDeclarationMissed | backend/app/core/instrumenter/scope_tracker.py:634-666 | For a statement alone on its line the row after it agrees with block scope on a name if and only if the statement is not a declaration as a braceless body of a name not in scope before |
| ScopeTables.BareDeclarationExample | backend/app/core/instrumenter/scope_tracker.py:634-666 | A braceless if body that declares x: the row of its line lacks x |
| ScopeTables.RowsAre | backend/app/core/instrumenter/scope_tracker.py:234-269 | Merging into shared tables leaves a statement alone on its line its own rows |
| ScopeTables.PostRow | backend/app/core/instrumenter/scope_tracker.py:251-269 | With several statements on a line the row after it collects exactly the names of all of them |
| ScopeShadow.OuterVariableShown | backend/app/core/instrumenter/scope_tracker.py:204-214 | For each name the row before a line shows the variable declared first; that is the innermost, declared last and nested most deeply, if and only if the name is visible but once |
| ScopeShadow.InnermostAfter | backend/app/core/instrumenter/scope_tracker.py:216-232 | In the row after a line and the main row a name declared by the statement stands for its own variable and any other for the first; so it is the innermost if and only if the statement declares it or it is visible but once |
| ScopeShadow.ShadowedShowsOuter | backend/app/core/instrumenter/scope_tracker.py:204-214 | A program in which the row before a line shows the outer variable though the inner is the innermost |
| ScopeTables.NoOtherRows | backend/app/core/instrumenter/scope_tracker.py:271-362 | No other line has a row |
| ScopeLexical.StmtsLexical | backend/app/core/instrumenter/scope_tracker.py:271-362 | The list of visible variables a walk carries is, at each statement, what it started with plus the names whose scope covers the statement; nothing leaks from a closed block |
| ScopeLexical.StmtLexical | backend/app/core/instrumenter/scope_tracker.py:440-556 | The same for each kind of statement, loop variables and branches included |
| ScopeLexical.BodyLexical | backend/app/core/instrumenter/scope_tracker.py:634-666 | The same for braced and braceless bodies |
| ScopeLexical.StmtsOwn | backend/app/core/instrumenter/scope_tracker.py:364-414 | A statement's own variables are exactly the names its scope begins with |
| ScopeTracker.MergeNamesInto | backend/app/core/instrumenter/scope_tracker.py:204-214 | The loop over a growing set of names appends what is missing |
| ScopeTracker.MergeReplaceInto | backend/app/core/instrumenter/scope_tracker.py:216-232 | The loop with fixed positions replaces each name where it stood |
| ScopeTracker.CollectDeclVars | backend/app/core/instrumenter/scope_tracker.py:364-390 | Names are appended in order, with a depth suffix on the id where one shadows |
| ScopeTracker.FunctionScope.Note | backend/app/core/instrumenter/scope_tracker.py:234-269 | One statement changes only its line's rows |
| ScopeTracker.FunctionScope.WalkBlock | backend/app/core/instrumenter/scope_tracker.py:271-362 | A block writes the specified rows; its own variables stay in its list |
| ScopeTracker.FunctionScope.WalkOne | backend/app/core/instrumenter/scope_tracker.py:291-348 | One statement and all inside it |
| ScopeTracker.FunctionScope.WalkSub | backend/app/core/instrumenter/scope_tracker.py:634-666 | A body with braces or without |
| ScopeTracker.BuildScope | backend/app/core/instrumenter/scope_tracker.py:271-362 | A function's three tables are those about which the lemmas are proved |
| LayoutComponents.PartitionComponents | frontend/src/utils/cfgLayout.ts:73-116 | The breadth-first searches partition the nodes into connected parts, each with exactly the edges whose ends are in it |
| LayoutComponents.SharedExactlyIfConnected | frontend/src/utils/cfgLayout.ts:73-116 | Two nodes share a component if and only if an undirected path joins them |
| LayoutComponents.EdgesLandOnce | frontend/src/utils/cfgLayout.ts:108-112 | An edge with both ends known is in exactly one component, as often as in the graph; any other is in none |
| LayoutComponents.Adjacency | frontend/src/utils/cfgLayout.ts:78-85 | The map lists for each node exactly those a known edge joins it to |
| LayoutComponents.Search | frontend/src/utils/cfgLayout.ts:92-106 | One search finds a whole component and nothing visited before |
| LayoutSwimlanes.LanesApart | frontend/src/utils/cfgLayout.ts:228-256 | For any positions the layout engine returns, node boxes of different components are at least 160 apart horizontally |
| LayoutSwimlanes.StaysInLane | frontend/src/utils/cfgLayout.ts:228-249 | Everything drawn of a component stays between its lane's sides and below the top |
| LayoutSwimlanes.BoundIsTight | frontend/src/utils/cfgLayout.ts:195-219 | The bounding box is around everything drawn and each side touches something |
| LayoutSwimlanes.BoundingBox | frontend/src/utils/cfgLayout.ts:195-225 | The running minima and maxima over nodes and then edge points give the least box |
| LayoutSwimlanes.PlaceLane | frontend/src/utils/cfgLayout.ts:227-238 | A component's nodes are shifted together and no other position changes |
| LayoutSwimlanes.RunLayout | frontend/src/utils/cfgLayout.ts:122-258 | All components side by side, every node and every way-point moved into its component's lane |

## Left out

Control-flow graph
- do-while, try and catch, throw, goto and labelled statements, stacked case labels, a switch whose body is no compound and if with an initialiser: their edges do not follow every path exactly. `Other` stands for statements that complete normally.
- Node label text, call targets, loop child lists, the function name on nodes and the overlay of trace indices: display data beside the graph.
- libclang parsing: cursors become a datatype with lines and text; ids are a prefix with a number.

Heap
- HeapObjects.SerializerRuntime.Members: does not model struct members held by value, because the first one shares its parent's address and so gets its parent's id.
- HeapObjects.SerializerRuntime.Member: the same.
- HeapObjects.HeapTable.WalkValue: does not model lists of objects, which only containers print.
- HeapObjects.HeapTable.BuildEntry: the same for members that are lists of objects.
- HeapObjects.HeapTable.ExtractFrom: the same for references inside lists.
- The characters of the JSON text, ids as text, and the changes between two tables.
- Scalar fields that are themselves dictionaries with `$id` or `$ref` at the top, or that look like a depth marker: C++ identifiers have no dollar sign.

Trace store
- TraceGroups.GroupsAreMaximalRuns: does not model groups counted by the server, because their indices are those of another list.
- TraceStore.GroupRuns: the same.
- TraceStore.RebuildCompression: the same.
- Navigation while a trace is still streaming, stream errors and reset.
- Display keys are compared as values, not as the text they are joined into.

Coordination
- The non-atomic GET-then-DELETE fallback of the release, and tokens drawn twice: tokens are fresh.
- Request steps before the flight (stdin checks, instrumentation, source cache) and the mapping to HTTP answers.
- The poll interval, and entries too large for the shared tier except as writes that fail. Time is logical; the sandbox is a function of the key.
- CacheDisk.DiskLRUCache.Put: does not model temporary files, a disabled cache, or failed writes, which leave the directory as it was.
- CacheDisk.DiskLRUCache.Evict: does not model files that cannot be deleted.
- CacheDisk.NewFileSurvives: says nothing of files with the new one's very time stamp, because their order is the directory's.

Parser and dynamic graph
- Validation of JSON lines, descriptions, and the gutter's previous and return lines and switch header lines: only its stack is modelled.
- Lone surrogates in output; the compare key as JSON text, its value being compared instead.
- Node labels of the dynamic graph, and its delegation to the static graph when source is given.

Splicing and scopes
- PointerTracker.TrackPointerLifetimes: takes extents from libclang; that what gets wrapped nests and is not empty is its precondition. The source is a sequence of one-byte characters.
- PointerTracker.PointerTracker.Splice: visits every offset from the end down instead of sorting those that have insertions.
- ScopeTracker.CollectDeclVars: does not model structured bindings and extent ends.
- ScopeTracker.FunctionScope.WalkBlock: does not model lambdas, try and switch with its case labels, nor declarations in while conditions and loop variable intervals.
- ScopeTracker.FunctionScope.WalkOne: the same.
- ScopeTracker.FunctionScope.WalkSub: the same.
- ScopeTracker.BuildScope: the same, and no templates.
- ScopeTables.BareDeclarationMissed: speaks of a statement alone on its line; `ScopeTables.NamesAfter` covers shared lines.
- ScopeShadow.InnermostAfter: the same, and expects a declaration to declare no name twice, as C++ does.

Other
- Dagre itself (its answer is arbitrary) and its virtual constraints and back edges.
- LayoutSwimlanes.RunLayout: keeps the way-points of a component in one list, not by edge.
- Recognition of other containers, tree layout, rate limits, the job queue, formatting and stdin cleaning: they would only add easy members.
