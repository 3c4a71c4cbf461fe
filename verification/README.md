# A verified model of the Nix evaluator's binder, cache and parallel forcing, and of the build simulators

This project models six parts of the repository in Dafny and proves what they are for. Run
`dafny verify dfyconfig.toml` in this directory. Each component is a few small modules, one per file
(`Optional` is shared):

1. **Static variable resolution** (`nix-src/src/libexpr/nixexpr.cc`). `NixSyntax` has one expression type
   for named and for resolved programs; `NixEval` is one evaluator (fuel-bounded, call by name, with
   errors as results) for both. `BindSpec` is resolution as a function, `BindRuntime` turns an environment
   of named closures into the one the resolved program runs in, `BindCorrect` proves that the two
   evaluations agree, `BindLookup` what levels, displacements and `with` links point at, and `Closed` when
   the undefined-variable error is raised. `BinderTree`, `BinderScope`, `BinderParts` and `Binder` are the
   traversal itself, which writes `level`, `displ`, `fromWith`, `prevWith` and `parentWith` into nodes on the
   heap; it is proved to write what `BindSpec` says, and `BinderMeaning` joins the two halves.
2. **The evaluation cache** (`nix-src/src/libexpr/eval-cache.cc`). `CacheModel` says when a row is true of
   the evaluator's value at a path, with a ledger of every id ever issued, so that rows replaced by
   `insert or replace` and everything filed under their old ids still count. `EvalCache` has the table and the
   cursors as objects; `EvalCacheRuns` runs arbitrary scripts of accessor calls over any number of cursors and
   reopenings, and `CacheSessions` compares sessions with and without a table.
3. **The parallel evaluator** (`nix-src/src/libexpr/parallel-eval.cc`). `ThunkProtocol` and `ThunkRuns`:
   any number of threads forcing values that share wait domains, one atomic access or lock operation per
   step; `ThunkWitness` is one run of it. `Executor`: the work queue, its promises, notifications and shutdown;
   `FutureVector`: waiting for all that was spawned.
4. **The build simulators.** `src/sim-gen.hpp`: `SimTrace` states the rules of a schedule and what follows
   about its length; `SimCore`, `SimSteps`, `SimRun`, `SimComplete` and `SimGen` are the timed generator, with
   the priority queue as a multiset from which any top element may be popped; `ReadyOrder` and `StartOrder` say in
   which order nodes start, and `SimReports` what is reported for each; `SimUntimed`, `SimErase` and
   `SimPlainGen` are the untimed generator and the exact correspondence of the two. `src/build-sim.hpp`:
   `TaskModel`, `TaskInv`, `TaskRuns` and `BuildSim` are the coroutine simulator. There, goals that are not
   parked may run in any order between suspensions and checks; resuming the waiters of an event inline, on the
   stack of the goal that sets it, is one of these orders.
5. **The derivation graph** (`src/drv-graph.hpp`). `DepGraph`, `GraphPaths` and `GraphPasses` on values;
   `DrvGraph` and `BuildGraph` on node objects whose fields the passes fill in.
6. **JSON building and attribute paths.** `JsonModel`, `JsonBuild` and `JsonSax` for
   `nix-src/src/libexpr/json-to-value.cc` (cells are numbered in order of allocation); `AttrPath`, `AttrText`,
   `DrvValues`, `GetDrvs`, `DrvRules` and `DrvPaths` for `attr-path.cc` and `get-drvs.cc`: `AttrText` says what a path
   means as text, and `DrvRules` where derivations are met, in terms of members and items only.

Where the code does not do what one would expect, the model follows the code:

- An integer outside the range of a C `int` comes back truncated from the cache's table, and a list of
  strings loses empty strings and is split at tabs. `GetInt` and `GetListOfStrings` say exactly when;
  `IntTwice` and `StringsTwice` ask twice, and `IntLost` and `StringLost` are inputs that change.
- If the root evaluates to a failure that the table has recorded, `maybeGetAttr` on the root answers that the
  attribute is missing, although without a table it raises the error; the root is exempt from the check for known
  failures (`MaybeGetAttr`, an if-and-only-if; `FailingRoot` is an instance). A list already recorded as "misc" is
  refused by `getListOfStrings` although its elements are strings (`GetListOfStrings`, likewise; `ForcedList`).
- The random part of a queue key may be 2^48, which spills into the priority (`KeyOrder` says exactly when
  two priorities collide).
- A list index of 2^32 or more in a reported attribute path is not read back as an index, so such a path
  leads nowhere (`PathLeadsBack`, an if-and-only-if; `PathLost` is an instance).
- A goal of the coroutine simulator that returns early never sets its event, so whatever depends on it stays
  parked and the build does not end (`ReturnedIff`, `ParkedForGood`; `EarlyReturnHangs` is such a run).
- A root path given twice gets two nodes in the derivation graph, and the index leads to the first of them only
  (`UnindexedIffRepeated`, an if-and-only-if; `RepeatedRoot` is an instance).
- A thread that loses the race to claim a thunk waits inside the `try` of `force`. If it is interrupted there, the
  handler overwrites the value with a failure, although another thread is evaluating it or has just finished it.
  `FinishedOnceIff` says in exactly which runs a value is finished once and by its evaluator, and `FinishedTwice` is a
  run in which it is not. Lost wakeups and failing assertions are excluded in these runs, too.
- A promise spawned when no worker is left is never settled, so waiting for it does not end (`SettledIff`,
  `OutcomesKnownIff`).

## Model

| member | source | states |
|---|---|---|
| BindCorrect.BindPreservesMeaning | nix-src/src/libexpr/nixexpr.cc:313-552 | for every expression, environment and fuel, evaluating the resolved form in the resolved environment gives the resolved result of ordinary scoping, error for error |
| BindLookup.ResolveCases | nix-src/src/libexpr/nixexpr.cc:313-347 | a lexical binder wins over every `with` and the level and displacement written for it are in range and name its slot; failing that, the links visit the enclosing `with` frames; the undefined-variable error is exactly what remains |
| BindLookup.LinksVisitWiths | nix-src/src/libexpr/nixexpr.cc:527-552 | following level and then the parent links visits exactly the enclosing `with` frames, innermost first |
| Closed.ScopeBound | nix-src/src/libexpr/nixexpr.cc:313-347 | a name is found by the walk over static environments exactly if a non-`with` scope binds it |
| BindSpec.SortFinds | nix-src/src/libexpr/include/nix/expr/nixexpr.hh:872-898 | stable sorting of a scope's variables does not change what a name resolves to |
| BinderScope.Find | nix-src/src/libexpr/include/nix/expr/nixexpr.hh:891-898 | the lower-bound search finds the variable's displacement, or that there is none |
| BinderScope.OpenSet | nix-src/src/libexpr/nixexpr.cc:410-436 | the scope of a recursive set or `let`: sorted, one displacement per definition, binding exactly the defined names |
| BinderScope.OpenLambda | nix-src/src/libexpr/nixexpr.cc:459-490 | the scope of a lambda: argument first, formals after it, sorted, binding exactly these names |
| BinderScope.BindVar | nix-src/src/libexpr/nixexpr.cc:313-347 | succeeds exactly if the name is bound or inside a `with`, and then the node's fields spell the resolved reference |
| Binder.BindSelect | nix-src/src/libexpr/nixexpr.cc:355-366 | selection with default and dynamic names is completely resolved, or reports exactly the unclosed ones |
| Binder.BindSetVars | nix-src/src/libexpr/nixexpr.cc:380-448 | `inherit (from)` sources and plain definitions see the set's own scope, inherited names the outer one |
| Binder.BindAttrs | nix-src/src/libexpr/nixexpr.cc:410-448 | attribute sets, recursive or not, are resolved completely or fail exactly when not closed |
| Binder.BindLambda | nix-src/src/libexpr/nixexpr.cc:459-490 | defaults and body are resolved in the scope of the parameters |
| Binder.BindCall | nix-src/src/libexpr/nixexpr.cc:492-501 | function and arguments are resolved in the same scope |
| Binder.BindLet | nix-src/src/libexpr/nixexpr.cc:503-525 | definitions and body are resolved in the scope of the `let`, inherited names outside it |
| Binder.BindWith | nix-src/src/libexpr/nixexpr.cc:527-552 | the scope expression is resolved outside, the body inside the new `with` scope |
| Binder.LinkWith | nix-src/src/libexpr/nixexpr.cc:532-549 | `prevWith` and `parentWith` link to the next enclosing `with`, or nowhere |
| Binder.BindVars | nix-src/src/libexpr/nixexpr.cc:284-552 | the traversal succeeds exactly on closed trees, and then every field written agrees with the resolution function, for the whole tree |
| BinderMeaning.BoundTreeMeans | nix-src/src/libexpr/nixexpr.cc:284-552 | the program spelled by the fields of a successfully bound tree means what the named program means |
| CacheStrings.Concat | nix-src/src/libutil/include/nix/util/strings-inline.hh:91-114 | the separator goes in only once something non-empty has been written |
| CacheStrings.JoinMeans | nix-src/src/libutil/include/nix/util/strings-inline.hh:91-114 | empty strings at the front leave no trace; from the first other string on, each is set off by a tab |
| CacheStrings.Tokenize | nix-src/src/libutil/include/nix/util/strings-inline.hh:8-26 | runs of separators are skipped, so no token is empty |
| CacheStrings.TokensMeans | nix-src/src/libutil/include/nix/util/strings-inline.hh:8-26 | nothing has no tokens, a non-empty text without tabs is its own token, and a tab separates |
| CacheStrings.RoundTrip | nix-src/src/libexpr/eval-cache.cc:185-197 | joining and splitting gives the list back exactly if no string is empty or contains a tab |
| CacheModel.InsertSound | nix-src/src/libexpr/eval-cache.cc:122-241 | inserting or replacing a true row under a fresh id leaves every row and every id ever issued truthful |
| CacheModel.IdsDistinct | nix-src/src/libexpr/eval-cache.cc:35-44 | in a sound table no two keys share a row id |
| CacheModel.FillingComplete | nix-src/src/libexpr/eval-cache.cc:122-137 | after a listing has been written, the rows under its id are exactly the attributes of the set |
| CacheModel.PutComplete | nix-src/src/libexpr/eval-cache.cc:139-241 | any other row leaves all listings complete |
| CacheModel.StoredIntExact | nix-src/src/libexpr/eval-cache.cc:174-183 | the integer column is exact precisely for values in the range of a C `int` |
| CacheModel.ToInt32Means | nix-src/src/libexpr/eval-cache.cc:174-183 | truncation gives the number in the range of a C `int` that differs by a multiple of 2^32 |
| CacheModel.StoredStringsExact | nix-src/src/libexpr/eval-cache.cc:185-197 | the list column is exact precisely if no string is empty or contains a tab |
| CacheModel.FindReaches | nix-src/src/libexpr/eval-cache.cc:524-536 | the attribute-wise walk succeeds exactly if the evaluator has a value at the end of the path |
| EvalCache.AttrDb.Insert | nix-src/src/libexpr/eval-cache.cc:122-241 | the row gets the next id, replaces what was at its key, and nothing starts to lie |
| EvalCache.AttrDb.PutAttrs | nix-src/src/libexpr/eval-cache.cc:122-137 | the listing's row, a placeholder for each name under its new id, and no other change; the table stays sound and all listings complete |
| EvalCache.AttrDb.GetAttr | nix-src/src/libexpr/eval-cache.cc:243-287 | a row is found exactly if its key has one; the copy read has the row's id and the row's own content (its integer, its text split at tabs, the names under its id), which is true of the key's path up to what the columns hold |
| EvalCache.AttrCursor.GetKey | nix-src/src/libexpr/eval-cache.cc:332-341 | the assertion never fails, and the key stands for the cursor's path |
| EvalCache.AttrCursor.GetValue | nix-src/src/libexpr/eval-cache.cc:343-357 | the value obtained through the parents is the evaluator's value at the path |
| EvalCache.AttrCursor.FetchCachedValue | nix-src/src/libexpr/eval-cache.cc:359-365 | afterwards the copy is the one already in memory or, failing that, the row read back; a failure is raised exactly if that copy is a failure and this is not the root |
| EvalCache.AttrCursor.ForceValue | nix-src/src/libexpr/eval-cache.cc:404-436 | raises exactly if the evaluator fails, otherwise returns its value, and leaves the row and copy that describe the value exactly when something was to be recorded |
| EvalCache.AttrCursor.MaybeGetAttr | nix-src/src/libexpr/eval-cache.cc:448-504 | a cursor exactly if the attribute exists; a cached failure exactly if one is recorded here (the root excepted) or for the attribute under this cursor's placeholder; at a root that fails, "no such attribute" exactly if the failure is recorded; asking a set records whether the attribute is there |
| EvalCache.AttrCursor.FindAlongAttrPath | nix-src/src/libexpr/eval-cache.cc:524-536 | a normal answer is the answer without a table |
| EvalCache.AttrCursor.GetString | nix-src/src/libexpr/eval-cache.cc:538-557 | with something recorded: a recorded failure is raised (the root excepted), a recorded string returned, anything else refused, and nothing written; otherwise what the evaluator has, or its error, which is then recorded; so a string is returned exactly as without a table |
| EvalCache.AttrCursor.GetBool | nix-src/src/libexpr/eval-cache.cc:603-622 | the same for booleans |
| EvalCache.AttrCursor.GetInt | nix-src/src/libexpr/eval-cache.cc:624-643 | returns the recorded copy if there is one and the evaluator's integer otherwise; read from the table that is the integer truncated to 32 bits, which is exact precisely in the range of a C `int` |
| EvalCache.AttrCursor.GetListOfStrings | nix-src/src/libexpr/eval-cache.cc:645-676 | returns the recorded copy if there is one and the evaluator's list otherwise; read from the table that is the list joined and split, which is exact precisely if no string is empty or contains a tab; a list recorded as "misc" is refused |
| EvalCache.AttrCursor.GetAttrs | nix-src/src/libexpr/eval-cache.cc:678-708 | the same for attribute names, as a set; afterwards the listing and a row for each name are there |
| EvalCacheRuns.Run | nix-src/src/libexpr/eval-cache.cc:122-708 | after any script of calls through any cursors and reopenings the table is sound and complete and no id has changed its meaning |
| CacheSessions.IntTwice | nix-src/src/libexpr/eval-cache.cc:624-643 | an integer asked for in two sessions on one table: exact first, truncated afterwards, the same exactly in the range of a C `int` |
| CacheSessions.IntLost | nix-src/src/libexpr/eval-cache.cc:624-643 | 2^31 comes back as -2^31 in the second session |
| CacheSessions.IntAgain | nix-src/src/libexpr/eval-cache.cc:624-643 | within one session an integer stays exact |
| CacheSessions.StringsTwice | nix-src/src/libexpr/eval-cache.cc:645-676 | a list asked for in two sessions on one table: exact first, joined and split afterwards, the same exactly if it is storable |
| CacheSessions.StringLost | nix-src/src/libexpr/eval-cache.cc:645-676 | the list of an empty string and "a" comes back as the list of "a" in the second session |
| CacheSessions.ForcedList | nix-src/src/libexpr/eval-cache.cc:645-676 | a list of strings that was only forced is recorded as "misc" and refused afterwards, although it is returned without a table |
| CacheSessions.FailingRoot | nix-src/src/libexpr/eval-cache.cc:448-504 | the root fails: asking for an attribute is an error without a table and "no such attribute" once the failure is recorded |
| CacheSessions.FailingAttr | nix-src/src/libexpr/eval-cache.cc:448-504 | an attribute that fails is handed out as a cursor at first and refused at once in a later session |
| ThunkProtocol.StepKeepsInv | nix-src/src/libexpr/include/nix/expr/eval-inline.hh:103-157 | every atomic step of every thread, the failure written by an interrupted thread that lost its claim included, keeps the invariant on values, threads, stacks and domain locks |
| ThunkRuns.AssertionsHold | nix-src/src/libexpr/parallel-eval.cc:224-264 | no thread of any run reaches a failing assertion of the wait, or the unreachable branch of finishing |
| ThunkRuns.NoLostWakeup | nix-src/src/libexpr/parallel-eval.cc:205-281 | a parked thread's value is still awaited, or another thread has finished it and has yet to notify; that thread is the evaluator unless a thread that lost its claim has written a failure |
| ThunkRuns.RecursionIsOwn | nix-src/src/libexpr/parallel-eval.cc:247-251 | infinite recursion is raised only in the thread that is evaluating the value; the value is still marked as its own, or somebody else has finished it, which needs a failure written by a thread that lost its claim |
| ThunkRuns.NeverWaitsForItself | nix-src/src/libexpr/parallel-eval.cc:247-251 | no thread is ever parked on a value it is evaluating |
| ThunkRuns.OneEvaluator | nix-src/src/libexpr/include/nix/expr/eval-inline.hh:103-157 | at most one thread evaluates a value, finished meanwhile or not |
| ThunkRuns.ValuesAdvance | nix-src/src/libexpr/include/nix/expr/value.hh:681-697 | values only move from thunk through pending and awaited to finished, under one owner; a finished one stays finished |
| ThunkRuns.ResultsStay | nix-src/src/libexpr/include/nix/expr/value.hh:681-697 | a finished value keeps its result or failure as long as no thread that lost its claim has written a failure |
| ThunkRuns.WriteOutcome | nix-src/src/libexpr/include/nix/expr/eval-inline.hh:131-147 | an evaluation that ends leaves its result, one that throws leaves a failure, and so does the handler |
| ThunkRuns.FinishedBy | nix-src/src/libexpr/include/nix/expr/eval-inline.hh:131-147 | in every run a finished value holds what the last write to it left; unless a thread that lost its claim has written a failure, that write was the end of its evaluator's own evaluation |
| ThunkRuns.ForceReturnsFinished | nix-src/src/libexpr/parallel-eval.cc:205-273 | a thread that waits leaves `force` only when the value is finished, unless it is interrupted or raises an error |
| ThunkRuns.FinishedOnceIff | nix-src/src/libexpr/include/nix/expr/eval-inline.hh:111-148 | every value is finished at most once, and only by the thread evaluating it, exactly in the runs in which no thread that lost a claim is interrupted while waiting and then goes on |
| ThunkRuns.FinishedOnceAtRest | nix-src/src/libexpr/include/nix/expr/eval-inline.hh:111-148 | once no handler is about to run: exactly in the runs in which no thread that lost a claim was interrupted while waiting |
| ThunkWitness.FinishedTwice | nix-src/src/libexpr/include/nix/expr/eval-inline.hh:111-148 | a run of two threads in which a value under evaluation is finished as a failure by the other thread and then again with its result |
| ThunkRuns.HolderStep | nix-src/src/libexpr/parallel-eval.cc:205-281 | the holder of a domain lock can always step, and comes closer to releasing it |
| ThunkRuns.CanGoOn | nix-src/src/libexpr/parallel-eval.cc:205-281 | a thread inside `force` can always step unless it is parked or wants a lock that is taken |
| ThunkRuns.NotifyReaches | nix-src/src/libexpr/parallel-eval.cc:275-281 | a notification wakes exactly the threads parked on values of the same domain, given by the address |
| ThunkRuns.WakeupReachable | nix-src/src/libexpr/parallel-eval.cc:275-281 | a thread parked on a finished value, whoever finished it, can be woken by at most four steps of other threads |
| Executor.KeyOrder | nix-src/src/libexpr/parallel-eval.cc:137-140 | a smaller priority never comes later, and exactly when two different priorities get the same key |
| Executor.StepKeepsInv | nix-src/src/libexpr/parallel-eval.cc:49-150 | every step of spawners, workers, notifications and shutdown conserves promises and keeps the queue sorted |
| Executor.EachPromiseOnce | nix-src/src/libexpr/parallel-eval.cc:82-150 | each spawned promise is queued, held or settled, in one way and once |
| Executor.NothingLeftBehind | nix-src/src/libexpr/parallel-eval.cc:49-123 | when all workers have exited, everything spawned before that is settled |
| Executor.QuitIff | nix-src/src/libexpr/parallel-eval.cc:94-123 | the executor quits exactly if it was shut down or some work was interrupted, not because of an ordinary exception; then nothing more is taken, and before that nothing is drained |
| Executor.SettledBy | nix-src/src/libexpr/parallel-eval.cc:94-123 | a settled promise has what one step gave it: done, the exception thrown, or an interruption by the worker holding it, or an interruption while it was queued |
| Executor.WorkedUnlessQuit | nix-src/src/libexpr/parallel-eval.cc:94-123 | unless the executor was told to quit, whatever is settled was taken from the front of the queue by a worker and settled by it with what the work came to; at a standstill that is everything that was not late |
| Executor.NoSleepOverWork | nix-src/src/libexpr/parallel-eval.cc:94-147 | while a worker is parked, each queued item has a notification due or a worker about to look at the queue, so nothing stands still over a non-empty queue |
| Executor.SettledIff | nix-src/src/libexpr/parallel-eval.cc:82-150 | once everything stands still, a promise has been settled, once, exactly if it was not spawned after the last worker had exited |
| Executor.LateNever | nix-src/src/libexpr/parallel-eval.cc:88-104 | a promise spawned after the last worker has exited is never settled |
| Executor.TakesLeast | nix-src/src/libexpr/parallel-eval.cc:105-109 | a worker takes an item with the least key |
| Executor.SpawnedInOrder | nix-src/src/libexpr/parallel-eval.cc:125-143 | items with the same key are queued in the order in which they were spawned |
| FutureVector.GetAll | nix-src/src/libexpr/parallel-eval.cc:181-190 | all futures of a batch are waited for, and the first exception is kept |
| FutureVector.Futures.FinishAll | nix-src/src/libexpr/parallel-eval.cc:169-194 | ends only when a round finds no futures, having waited for everything including what was added meanwhile; the first exception in that order is raised |
| FutureVector.OutcomesKnownIff | nix-src/src/libexpr/parallel-eval.cc:181-190 | once the executor stands still, the waits for a batch of futures end exactly if none of them was spawned after the last worker had exited |
| SimTrace.ScheduleSafety | src/sim-gen.hpp:544-657 | at every point of a legal stream: timestamps do not decrease, nodes start after their inputs and finish exactly their duration later, and the slots are respected |
| SimTrace.SlotsRespected | src/sim-gen.hpp:547-557 | nodes in flight never exceed the slots of their kind |
| SimTrace.MakespanAtLeastChains | src/sim-gen.hpp:544-657 | a complete run takes at least as long as every dependency chain |
| SimTrace.MakespanAtMostTotal | src/sim-gen.hpp:544-657 | and at most the sum of all durations |
| SimTrace.MakespanAtLeastWork | src/sim-gen.hpp:544-657 | the total duration of each kind is at most its slots times the length of the run |
| SimSteps.StartWorkKeeps | src/sim-gen.hpp:544-571 | starting work emits only legal starts and stops only at an empty queue or a head without a free slot |
| SimSteps.FinishIsDue | src/sim-gen.hpp:585-620 | a finish event is popped only for a running node, at its start plus its duration, with its slot taken |
| SimSteps.TickIsDue | src/sim-gen.hpp:594-613 | a progress event is popped only for a running node, strictly before its finish |
| SimSteps.WakeKeeps | src/sim-gen.hpp:640-645 | telling the dependents keeps every pending counter equal to the number of unfinished inputs |
| SimRun.RunInvariant | src/sim-gen.hpp:481-658 | between any two turns of any run the invariant holds and the stream so far is legal |
| SimRun.TopEligible | src/sim-gen.hpp:585-620 | whatever is on top of the timeline can be processed |
| StartOrder.StartOrderLaw | src/sim-gen.hpp:505-571 | in every run, between any two turns, the nodes started are a prefix of the order in which nodes become ready, as graph and stream determine it, and the next one waits for a slot of its kind |
| ReadyOrder.ReadyAfterAre | src/sim-gen.hpp:535-645 | that order lists exactly the nodes whose inputs have all finished |
| ReadyOrder.LeavesAscend | src/sim-gen.hpp:535-540 | and begins with the nodes without inputs, ascending |
| SimReports.ReportLaw | src/sim-gen.hpp:559-638 | every node finished in a run has its progress reported at each multiple of the interval before its finish, in order, and once at the finish, if progress is on, and never otherwise; and it has exactly its log lines |
| SimComplete.CompletesIff | src/sim-gen.hpp:481-658 | a finished run has started and finished every node if and only if the graph is acyclic and every kind in use has a slot |
| SimComplete.OncePerNode | src/sim-gen.hpp:544-657 | no node is started or finished twice |
| SimComplete.FinishDecreases | src/sim-gen.hpp:585-657 | a finish makes the number of unfinished nodes smaller |
| SimComplete.TickDecreases | src/sim-gen.hpp:594-613 | a progress event makes the remaining progress smaller |
| SimGen.SeedReady | src/sim-gen.hpp:505-540 | leaves are queued in index order, everything else waits for its inputs (`StartOrderLaw` says the same of the stream) |
| SimGen.StartReady | src/sim-gen.hpp:544-571 | the loop starts what the specification starts, in order |
| SimGen.WakeDependents | src/sim-gen.hpp:640-645 | the loop over the dependents, in order |
| SimGen.Turn | src/sim-gen.hpp:585-657 | one turn of the main loop performs one step of a run |
| SimGen.GenerateTimedEvents | src/sim-gen.hpp:481-658 | terminates, whatever the graph, having performed a run to an empty timeline; its stream obeys the rules of a schedule, no node occurs twice, nodes start in the order in which they become ready, reports and log lines are complete, and every node is finished once, within the bounds on the length, if the graph is acyclic and each kind in use has a slot, and not every node otherwise |
| SimGen.FinishedRun | src/sim-gen.hpp:481-658 | all of this for the stream of any finished run |
| SimErase.ErasedRunIsRun | src/sim-gen.hpp:329-658 | erasing timestamps and progress from a timed run gives an untimed run, which is over if the timed one is |
| SimErase.EveryRunIsErased | src/sim-gen.hpp:329-658 | every untimed run is the erasure of a timed run |
| SimPlainGen.TakeReady | src/sim-gen.hpp:388-412 | the untimed loop starts what its specification starts |
| SimPlainGen.PlainTurn | src/sim-gen.hpp:428-474 | one turn of the untimed main loop performs one step of an untimed run |
| SimPlainGen.GenerateEvents | src/sim-gen.hpp:329-475 | terminates, having performed an untimed run to an empty timeline, with notes as below |
| SimPlainGen.PlainFinishedRun | src/sim-gen.hpp:329-475 | the notes are those of a stream as the timed generator delivers it; nodes begin in the order in which they become ready, at most once, and each begins and ends exactly if the graph is acyclic and every kind in use has a slot |
| SimPlainGen.PlainCompletesIff | src/sim-gen.hpp:329-475 | it reports each node started once and finished once if and only if the graph is acyclic and every kind in use has a slot |
| TaskInv.StepKeeps | src/build-sim.hpp:344-445 | every step of every goal, with any outcome of its checks, keeps slots, waiting lists, events and the inputs seen consistent |
| TaskRuns.ItselfMoves | src/build-sim.hpp:344-445 | where the goal that runs goes next, for every place and outcome: on to the next input exactly if this one has completed, to work exactly if fewer goals own a slot than there are, and so on |
| TaskRuns.OthersMove | src/build-sim.hpp:344-445 | all other goals stay where they are, except those woken by a returned slot or by the completion they wait for |
| TaskRuns.SlotsConserved | src/build-sim.hpp:136-170 | in every state of every run, free slots plus goals owning one equal the capacity |
| TaskRuns.ParkedMeansFull | src/build-sim.hpp:144-157 | a goal is parked for a slot only while none is free, and is on the waiting list |
| TaskRuns.NobodyWaitsForSlots | src/build-sim.hpp:144-157 | once nothing can run, no goal is parked for a slot |
| TaskRuns.SlotsReturned | src/build-sim.hpp:379-433 | once nothing can run, all slots are free again, on every way out |
| TaskRuns.ReturnedIff | src/build-sim.hpp:344-445 | once nothing can run, a goal has returned if and only if nothing it depends on gave up |
| TaskRuns.EarlyReturnHangs | src/build-sim.hpp:344-366 | a run of two goals in which the first returns early and the second is parked for good |
| TaskRuns.NeverStuckEarly | src/build-sim.hpp:344-445 | without shutdown or failed deliveries no state of a run is stuck before all goals have returned |
| TaskRuns.ParkedForGood | src/build-sim.hpp:359-362 | a goal parked on one that gave up stays parked |
| TaskRuns.WorksAfterInputs | src/build-sim.hpp:354-366 | a goal owns a slot only after all its inputs completed |
| TaskRuns.StepDecreases | src/build-sim.hpp:344-445 | every step makes a measure smaller, so every run ends |
| TaskRuns.CompletedKeeps | src/build-sim.hpp:441-442 | the counter equals the number of goals whose event has been set |
| BuildSim.Event.Set | vendor/libcoro/src/event.cpp:11-33 | setting hands back the waiters, latest first, unless the event was set |
| BuildSim.Event.Await | vendor/libcoro/src/event.cpp:40-61 | a goal goes on at once if the event is set, and is pushed on the list otherwise |
| BuildSim.Semaphore.Acquire | src/build-sim.hpp:144-151 | the loop takes a slot exactly if one is free, and otherwise parks with the event reset |
| BuildSim.Semaphore.Release | src/build-sim.hpp:153-157 | one more slot, and everyone parked is resumed |
| BuildSim.Simulator.RunGoal | src/build-sim.hpp:344-445 | a goal run up to its next check or suspension performs one step of the model |
| BuildSim.Build | src/build-sim.hpp:192-234 | any scheduling of any graph ends, with all slots free; on an acyclic graph with a slot for every kind, goals have returned as above, and all of them completed if all checks succeeded |
| DrvGraph.TopologicalOrder | src/drv-graph.hpp:121-148 | the order has no repeats, puts every node after its inputs, and leaves out only nodes with an input left out; it is the order in which nodes become ready, leaves first and ascending |
| GraphPasses.KahnLowers | src/drv-graph.hpp:141-144 | an in-degree counter never underflows and equals the number of inputs not yet ordered |
| GraphPaths.OrderedIffNoCycle | src/drv-graph.hpp:121-148 | the order lists exactly the nodes that do not depend on a cycle |
| GraphPaths.PermutationIffAcyclic | src/drv-graph.hpp:121-148 | it is a permutation exactly if the graph is acyclic |
| GraphPasses.RaiseStep | src/drv-graph.hpp:317-323 | raising an input and queueing it again keeps every depth reached by some path and every other node settled |
| GraphPasses.DepthsFinal | src/drv-graph.hpp:304-325 | with an empty queue each depth is the length of the longest path from a root |
| DrvGraph.ComputeDepths | src/drv-graph.hpp:304-325 | terminates on every acyclic graph, each depth being the longest distance from a root |
| GraphPasses.RaiseSettles | src/drv-graph.hpp:317-323 | on any graph, cycles included, raising an input and queueing it leaves every other node settled |
| GraphPasses.SettledIffNoCycle | src/drv-graph.hpp:304-325 | there are depths with which the loop can stop, all nodes settled and the queue empty, exactly if no root reaches a cycle |
| GraphPaths.HeightIsLongest | src/drv-graph.hpp:327-338 | the height is the length of the longest path down, which ends at a leaf |
| GraphPaths.SizeCountsTree | src/drv-graph.hpp:327-338 | the subtree size is the number of nodes of the unfolded dependency tree |
| GraphPaths.SizeBoundsDependencies | src/drv-graph.hpp:327-338 | it is at least the number of distinct dependencies, the node included |
| DrvGraph.ComputeHeights | src/drv-graph.hpp:327-338 | heights and sizes satisfy their defining equations on all nodes |
| DrvGraph.CriticalPath | src/drv-graph.hpp:368-398 | terminates with a path from a root to a leaf that no path of the graph exceeds; it begins at the first of the tallest roots and goes on to the first of the tallest inputs |
| BuildGraph.Discover | src/drv-graph.hpp:229-275 | a node for each derivation reachable from the roots: first the root paths as given, repeats included, then derivations that did not occur before, breadth first in the order in which they are mentioned; the index leads to the first node of each path |
| BuildGraph.NoRepeats | src/drv-graph.hpp:229-275 | without repeated root paths each reachable derivation has exactly one node |
| BuildGraph.UnindexedIffRepeated | src/drv-graph.hpp:229-275 | the nodes the index does not lead to are exactly those for a root path given again |
| BuildGraph.RepeatedRoot | src/drv-graph.hpp:229-275 | the roots p, p of an empty store give two nodes for p, of which the index leads to the first |
| BuildGraph.Wire | src/drv-graph.hpp:277-294 | inputs are the dependencies in order, outputs the users in index order |
| BuildGraph.WiredToIsWired | src/drv-graph.hpp:277-294 | inputs and outputs are transposes without repeats |
| BuildGraph.FindEnds | src/drv-graph.hpp:296-302 | roots are the nodes without outputs, leaves those without inputs |
| BuildGraph.DerivationGraph.constructor | src/drv-graph.hpp:221-341 | the finished graph for any list of root paths: reachable derivations, transposed edges, roots, leaves, depths, heights and sizes |
| JsonBuild.Builds | nix-src/src/libexpr/json-to-value.cc:15-201 | fed a document's events in any state that expects a value, the machine fails exactly on refused documents and otherwise fills the current cell with the document's value and changes no other existing cell |
| JsonSax.Sax.Value | nix-src/src/libexpr/json-to-value.cc:40-45 | the cell to be filled, allocated on demand |
| JsonSax.Sax.OnKey | nix-src/src/libexpr/json-to-value.cc:71-75 | refuses NUL bytes; the cell is stored under the key before it is filled, a later equal key replacing it |
| JsonSax.Sax.OnEnd | nix-src/src/libexpr/json-to-value.cc:57-90 | the finished list or set becomes the parent's value |
| JsonSax.ParseJson | nix-src/src/libexpr/json-to-value.cc:204-210 | fails exactly on refused documents; otherwise the given cell holds the value and every other cell is as it was |
| AttrPath.ParseAttrPath | nix-src/src/libexpr/attr-path.cc:8-33 | the loops compute the components, or report an unclosed quote |
| AttrPath.ParsesIffPaired | nix-src/src/libexpr/attr-path.cc:14-32 | parsing fails exactly if the number of quotes is odd |
| AttrText.ParseMeans | nix-src/src/libexpr/attr-path.cc:8-33 | every text whose quotes pair up is written as components of bare and quoted pieces joined by dots, and parses to the texts of the components, an empty last one excepted; any other text does not parse |
| AttrText.ParseJoined | nix-src/src/libexpr/attr-path.cc:8-33 | components of bare and quoted pieces, written and joined by dots, parse to their texts, empty ones included unless they come last |
| AttrText.QuotedRoundTrip | nix-src/src/libexpr/attr-path.cc:8-33 | any components without quotes, written in quotes where needed, come back, if the last is not empty |
| AttrText.QuotedDot | nix-src/src/libexpr/attr-path.cc:17-26 | a quoted dot does not separate, and quoted text continues bare text: two instances |
| AttrText.EmptyComponents | nix-src/src/libexpr/attr-path.cc:14-31 | two dots enclose an empty component, and a dot at the end is dropped |
| AttrPath.RoundTrip | nix-src/src/libexpr/get-drvs.cc:367-370 | a path printed from non-empty components without dots and quotes parses back to them |
| AttrPath.IsAttrPathComponent | nix-src/src/libexpr/get-drvs.cc:372-391 | exactly the non-empty names of a letter or underscore followed by name characters |
| AttrText.ComponentMeans | nix-src/src/libexpr/get-drvs.cc:372-391 | the characters admitted, by their codes |
| AttrPath.IndexRoundTrip | nix-src/src/libexpr/attr-path.cc:72-72 | a printed index is read back exactly if it is below 2^32 |
| AttrText.IndexMeans | nix-src/src/libexpr/attr-path.cc:72-72 | a component is an index exactly if it is a decimal number below 2^32, perhaps after a plus sign and zeros |
| AttrText.DecimalDigitByDigit | nix-src/src/libexpr/get-drvs.cc:453-453 | numbers are printed in decimal, most significant digit first |
| DrvValues.FindAlongAttrPath | nix-src/src/libexpr/attr-path.cc:61-127 | the loop calls and selects as the specification does, with the same failures |
| DrvPaths.FollowMeans | nix-src/src/libexpr/attr-path.cc:61-127 | following a path leads to a value exactly if each value on the way can be called and the next component selects the next one, by index if it is a number and by a non-empty name otherwise |
| DrvValues.AutoCallMeans | nix-src/src/libexpr/eval.cc:1824-1876 | calling a value calls its functors one after the other, and then a function once |
| GetDrvs.Search.GetDerivation | nix-src/src/libexpr/get-drvs.cc:324-355 | reports a derivation once per set, and says whether to look inside, for every way of failing |
| GetDrvs.Search.GetDerivations | nix-src/src/libexpr/get-drvs.cc:393-462 | the search with its set of seen sets reports what listing all occurrences and dropping repeats would report; what occurs is said by the rules below |
| DrvRules.FoundIsMet | nix-src/src/libexpr/get-drvs.cc:393-462 | whatever is found is met by the rules, which speak only of the members of sets and the items of lists, at the place reported and with what its name gives |
| DrvRules.MetIsFound | nix-src/src/libexpr/get-drvs.cc:393-462 | where the rules meet a derivation the search finds it, and where they meet an error it does not succeed |
| DrvRules.FailsIff | nix-src/src/libexpr/get-drvs.cc:393-462 | the search fails exactly if the rules meet an error somewhere |
| DrvRules.FoundInOrder | nix-src/src/libexpr/get-drvs.cc:410-455 | occurrences come in the order in which members and items are listed |
| DrvRules.RecursesMeans | nix-src/src/libexpr/get-drvs.cc:433-442 | a set is searched further exactly if it has the member `recurseForDerivations` with the value true, and looking fails exactly if the member is no boolean |
| DrvRules.LookMeans | nix-src/src/libexpr/get-drvs.cc:324-355 | what looking at a value gives, by the value of its member `type` |
| DrvPaths.PathLeadsBack | nix-src/src/libexpr/attr-path.cc:61-127 | a reported path parses to its components, and following it selects the derivation, up to a final call, exactly if its list indices are below 2^32 |
| DrvPaths.PathLost | nix-src/src/libexpr/attr-path.cc:61-127 | a derivation at list index 2^32 is reached by the rules, and its path parses but cannot be followed |
| DrvPaths.CollectOk | nix-src/src/libexpr/get-drvs.cc:338-349 | no set twice, every package from the first occurrence of its set, and each such occurrence with a name listed |
| DrvPaths.CollectIs | nix-src/src/libexpr/get-drvs.cc:338-349 | reporting fails exactly if the name of the first occurrence of some set cannot be had, and otherwise gives the first occurrences with a name, in order |
| DrvPaths.ReportDerivations | nix-src/src/libexpr/get-drvs.cc:464-474 | for a search from the empty prefix: it fails if the rules meet an error; otherwise the occurrences are exactly the derivations the rules meet, in order, the search fails exactly if the name of a first occurrence cannot be had, and else reports the first occurrences with a name; each reported path parses, and can be followed, to the reported set, exactly if its list indices are readable |

## Left out

- Binder: `__overrides`, the functor attribute, primitive operations and the operator, conditional, assertion and list expressions, whose subexpressions are bound in the same scope; recording environments for the debugger; the 32-bit width of levels and displacements; sharing, memoisation and black holes of thunks (the evaluator is call by name with fuel).
- Cache: SQLite failures, string contexts (`getStringWithContext`), path values, `isDerivation` and `forceDerivation`, the order of attribute names, two sessions writing one table at once, and the texts of errors.
- Parallel evaluator: garbage-collector registration, statistics, logging of further exceptions, memory orders weaker than sequential consistency, the two words of a value being written separately, evaluations that write their value before they are done, and threads waiting for each other's values in a cycle, which the code does not rule out.
- Timed and untimed generators: random numbers, floating-point duration estimates, names and log texts. Durations and the choice of substitution are arbitrary inputs, the same for both generators; `lines` is the number of log lines per node, 0 unless the output is verbose.
- Coroutine simulator: real sleeping, log texts, the event publication behind `emit` (its outcome is arbitrary), and the particular nesting of inline resumption (all orders are allowed instead). The number of output lines is an arbitrary input. Two goals running on different threads at once, which the semaphore does not support, are not modelled.
- Derivation graph: names, environments and other details of derivations, `path_to`, `at_depth` and the statistics, a store that changes between the two passes, fixed-width overflow of `subtree_size`, and the depth pass on cyclic graphs, which the store cannot contain.
- ComputeDepths: requires an acyclic graph; if a root reaches a cycle there are no depths with which the loop can stop (`SettledIffNoCycle`), and it goes on until the counter wraps.
- CriticalPath: requires an acyclic graph with its heights computed, as the construction leaves it; on a cycle the walk would not end.
- JSON: lexing and parsing of the text, which is the job of the JSON library; the reserve hint for arrays; the binary callback. Cells are numbers in an arena instead of pointers, and the stack of states is a sequence.
- Attribute paths: `to_string`, source positions, suggestions in errors, `findPackageFilename`, package fields other than the name, string contexts of names, and call-depth limits. Values are finite trees whose thunks are evaluated when looked at; members are listed in the order in which the search visits them.
