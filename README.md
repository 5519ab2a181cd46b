# A model of dask's single-machine async scheduler

This project models the core of dask's local scheduler, `dask.async`, as
`dask/tests/test_async.py` pins it down:

- `start_state_from_dask` compiles a task graph into a scheduling state: `cache`,
  `dependencies`, `dependents`, `waiting`, `waiting_data`, `ready`, `ready-set`,
  `running`, `finished` and `released`.
- `finish_task` is the in-place transition applied when a running task has stored
  its result. The key moves to `finished`, dependents whose wait is over become
  ready, and dependencies no longer read by anyone are released from the cache.
- `get_sync` is the sequential driver. It pops the last ready key, runs it, stores its result, applies `finish_task`, and finally reads the
  requested keys out of the cache, shaped like the request.
- `sortkey` orders keys of mixed types: plain names before tuple keys, names by
  code point, tuple keys component by component.

The start state lists its ready keys in the static priorities of `order`, the
most urgent last. Those priorities are an input: a map that numbers every key
of the graph with no two alike. A key that becomes ready later is appended to
`ready`, after the keys already there.

The modules, in dependency order:

- `Results` (`results.dfy`): the `Result` type.
- `Keys` (`keys.dfy`): keys and `sortkey`.
- `Priority` (`priority.dfy`): priority maps and sorting by priority.
- `Graphs` (`graph.dfy`): task graphs, dependencies, and the execution of one
  task. It also holds `Eval`, a reference semantics of an acyclic graph, which
  is the independent definition the driver is proved against.
- `SchedulingState` (`state.dfy`): the state, `start_state_from_dask`, and the
  invariants of the state (`Consistent`).
- `Executor` (`finish.dfy`): `finish_task`. `FinishTransition` specifies it as a
  function, and the `Scheduler` class performs it in place, with its two loops.
- `Invariants` (`invariants.dfy`): every step of the scheduler keeps
  `Consistent`, and the effects of `finish_task` are stated in terms of the graph.
- `Driver` (`driver.dfy`): `get_sync`, `nested_get`, and the proof that a
  successful run answers the request as `Eval` does.
- `Scenarios` (`scenarios.dfy`): the graphs of the unit tests, with `inc`, `add`
  and `sum` as task functions, and what the model computes for them.

## Model

| member | source | states |
|---|---|---|
| Keys.SortKey | dask/tests/test_async.py:114-116 | `sortkey(k)` is the pair (type name, key). The first component is "str" exactly for plain names. |
| Keys.SortKeyLess | dask/tests/test_async.py:115-116 | Python's `<` on sort keys: a plain name is below every tuple key, and a tuple key is never below a plain name. |
| Keys.NamesBeforeTuples | dask/tests/test_async.py:115-116 | Every plain name sorts before every tuple key, never after. |
| Keys.TuplesLexicographic | dask/tests/test_async.py:115-116 | Two tuple keys compare by name first and then by their indices, lexicographically. |
| Keys.SortKeyStrictTotalOrder | dask/tests/test_async.py:114-116 | The `sortkey` order is irreflexive, transitive and total on distinct keys, so `sorted(L, key=sortkey)` is well defined. |
| Keys.SortedBySortKeyUnique | dask/tests/test_async.py:116 | Two strictly sorted arrangements of the same multiset of keys are equal: the sorted list does not depend on the starting order. |
| Scenarios.SortKeyExample | dask/tests/test_async.py:114-116 | `['x', ('x', 0), ('x', 1), ('z', 0)]` is sorted, is a permutation of `L`, and is the only sorted permutation of `L`. |
| Priority.SortByPriority | dask/tests/test_async.py:194-205 | Sorting a set of keys by priority yields a list in strictly increasing priority, with exactly the set's elements, each once. |
| Priority.IsSortByPriority | dask/tests/test_async.py:194-205 | Any increasing arrangement of a set is the one `SortByPriority` builds, so the order of `ready` is determined by the priorities. |
| Priority.FilterSorted | dask/tests/test_async.py:74-75 | The part of a priority-sorted set that lies in another set is the sorted intersection. The newly ready dependents therefore come out in priority order. |
| Graphs.GetDependencies | dask/tests/test_async.py:18-21 | The explicit-stack walk over an entry's argument specs, nested lists included, collects exactly the keys the entry reads. |
| Graphs.DependentsInverse | dask/tests/test_async.py:18-25 | `dependencies` and `dependents` both hold every key of the graph, and `a` is in `dependencies[b]` exactly when `b` is in `dependents[a]`. |
| Graphs.ResolveArg | dask/tests/test_async.py:95-97 | A key argument resolves to that key's cached value. A literal argument passes through unchanged. A nested list argument resolves to a list of the same length whose i-th element is its i-th argument resolved. |
| Graphs.ResolveArgs | dask/tests/test_async.py:89-97 | The resolved arguments of a call are as many as its argument specs, and the i-th is the i-th spec resolved on its own. |
| Graphs.ExecuteTask | dask/tests/test_async.py:37-40 | `_execute_task` on one entry: a literal is its own value, and only a call can fail; an alias reads its target. |
| Graphs.ExecuteLocal | dask/tests/test_async.py:89-92 | A task's outcome depends only on the cached values of the keys it reads. |
| Graphs.AgreeIsEval | dask/tests/test_async.py:89-97 | On an acyclic graph, any consistent record of computed results holds exactly the reference values, whatever order produced it. |
| Graphs.FailureIsEvalFailure | dask/tests/test_async.py:89-92 | A task that fails on consistent dependency values fails with the same error in the reference semantics. |
| SchedulingState.StartStateFromDask | dask/tests/test_async.py:13-15 | Building the start state fails exactly when some entry reads a key that is not in the graph. |
| SchedulingState.LiteralValues | dask/tests/test_async.py:14-17 | The initial cache holds exactly the literal entries, each with its value. |
| SchedulingState.InitiallyReady | dask/tests/test_async.py:29-30 | A key starts ready exactly when it is a task and everything it reads is a literal. A task that reads no key at all is included. |
| SchedulingState.InitialWaiting | dask/tests/test_async.py:31 | A task waits at the start exactly when it reads a non-literal, and it waits for precisely those non-literal dependencies. |
| SchedulingState.InitialWaitingData | dask/tests/test_async.py:32-34 | `waiting_data` holds an entry for exactly the keys with readers, and that entry is the set of all their readers. Sinks have no entry. |
| SchedulingState.StartStateShape | dask/tests/test_async.py:13-34 | The whole start state, key by key: cached literals only, inverse dependency maps, ready or waiting by the literal test, `ready-set` equal to the elements of `ready` in increasing priority, `waiting_data` equal to `dependents` for keys with readers, and running/finished/released empty. |
| SchedulingState.StartStateConsistent | dask/tests/test_async.py:13-34 | The start state satisfies every invariant of `Consistent`. |
| Scenarios.StartStateExample | dask/tests/test_async.py:13-34 | On `{x: 1, y: 2, z: (inc, x), w: (add, z, y)}` the start state is exactly the dictionary of the test. |
| Scenarios.RedirectsExample | dask/tests/test_async.py:37-40 | With `'y': 'x'`, only `x` starts cached: an alias is not a literal. |
| Scenarios.IndependentExample | dask/tests/test_async.py:43-44 | `{'x': (inc, 1)}` starts with `ready == [x]`. |
| Scenarios.OrderOfStartStateExample | dask/tests/test_async.py:194-199 | With `b` ranked more urgent than `y`, the ready list is `[y, b]`, so `b` is popped first. |
| Scenarios.OrderOfStartStateMirrored | dask/tests/test_async.py:201-205 | With the chains swapped and `y` more urgent, the ready list is `[b, y]`. |
| Executor.FinishTransition | dask/tests/test_async.py:59-78 | `finish_task` as a function of the old state: the old `ready` is kept as a prefix, and after it come exactly the newly ready dependents, in increasing priority. `key` leaves `running` and enters `finished`. Other running keys stay. The dependency maps are unchanged. The cache only loses entries. |
| Executor.PopTransition | dask/tests/test_async.py:51-53 | `ready.pop()` and `running.add`: the old `ready` is the new one followed by the popped key, which is now running, and the cache is untouched. |
| Executor.VisitDependentsMeaning | dask/tests/test_async.py:74-76 | Visiting distinct dependents one at a time removes `key` from each one's wait, drops the emptied entries, and appends exactly the newly ready ones in visiting order. |
| Executor.VisitDependenciesMeaning | dask/tests/test_async.py:62-78 | Visiting distinct dependencies one at a time removes `key` from their readers, and releases from `cache` and `waiting_data` exactly those left unread and unprotected. |
| Executor.DependentsVisited | dask/tests/test_async.py:74-76 | Visiting all dependents in increasing priority gives the `waiting`, `ready` and `ready-set` of the `finish_task` transition. |
| Executor.DependenciesVisited | dask/tests/test_async.py:62-78 | Visiting all dependencies, in any order, gives the `waiting_data`, `cache` and `released` of the transition. |
| Executor.PromoteLoop | dask/tests/test_async.py:74-76 | The loop over the sorted dependents computes the visit of all of them. |
| Executor.ReleaseLoop | dask/tests/test_async.py:62-78 | The loop over the dependencies visits each exactly once and computes the visit of all of them. |
| Executor.Scheduler.FromState | dask/tests/test_async.py:50 | The scheduler object holds the given state. |
| Executor.Scheduler.StoreResult | dask/tests/test_async.py:58 | Storing a result changes `cache[key]` and nothing else. |
| Executor.Scheduler.PopReady | dask/tests/test_async.py:51-53 | Popping returns the last ready key, removes it from `ready` and `ready-set`, adds it to `running`, and changes nothing else. |
| Executor.Scheduler.PromoteDependents | dask/tests/test_async.py:74-76 | In place, `waiting`, `ready` and `ready-set` become the visit of the sorted dependents. Every other field is unchanged. |
| Executor.Scheduler.ReleaseDependencies | dask/tests/test_async.py:62-78 | In place, `waiting_data`, `cache` and `released` become the visit of all dependencies. Every other field is unchanged. |
| Executor.Scheduler.FinishTask | dask/tests/test_async.py:57-78 | The state, updated in place, is the `finish_task` transition of the old state. |
| Scenarios.FinishBeforeFromStart | dask/tests/test_async.py:50-58 | The state the test hands to `finish_task` is the start state with `z` taken off `ready` and `ready-set`, running beside `other-task`, and its result 2 stored. |
| Scenarios.FinishTaskExample | dask/tests/test_async.py:47-78 | Finishing `z` of the diamond with `other-task` running gives exactly the state the test expects: `w` ready, `x` released, `waiting` empty, `other-task` still running. |
| Scenarios.FanoutStart | dask/tests/test_async.py:194-199 | On `{a: (f,), b: (f,), c: (f, 'b')}` with priorities a=1, b=5, c=0, the start state has `ready == [a, b]`, nothing running, and `c` waiting on `b`. |
| Scenarios.FanoutFinish | dask/tests/test_async.py:59-78 | In any state where only `a` is ready, `b` runs, and `c` waits on `b` alone, finishing `b` is allowed and gives `ready == [a, c]`. |
| Scenarios.AppendedAfterReady | dask/tests/test_async.py:74-75 | From that start state, popping `b` and finishing it gives `ready == [a, c]` although `c` is less urgent than `a`: a newly ready key is appended, not inserted by priority. |
| Invariants.RunningFacts | dask/tests/test_async.py:53-59 | A running key is a task whose dependencies are all done, whose readers all wait for it, and which `finish_task` may be applied to. |
| Invariants.NewlyReadyMeaning | dask/tests/test_async.py:74-76 | A dependent becomes ready exactly when it reads `key` and everything it reads is done once `key` is. |
| Invariants.FreedMeaning | dask/tests/test_async.py:62-78 | A dependency is released exactly when it is not yet released, not protected, and all its readers are finished once `key` is. |
| Invariants.FinishPreserves | dask/tests/test_async.py:47-78 | `finish_task` on a running key whose value is cached keeps every invariant of the state. |
| Invariants.FinishEffects | dask/tests/test_async.py:59-78 | In terms of the graph: `key` moves from running to finished, other running keys stay, the dependency maps are unchanged, the new ready keys and the new released keys are exactly as above, and `key`'s value and its own `waiting_data` entry, contents included, are kept. |
| Invariants.PopPreserves | dask/tests/test_async.py:51-53 | Popping a ready key into `running` keeps every invariant. |
| Invariants.StorePreserves | dask/tests/test_async.py:58 | Storing the result of a running key keeps every invariant. |
| Invariants.DepsCached | dask/tests/test_async.py:89-92 | A ready or running key has all its dependencies in the cache, so the driver can resolve its arguments. |
| Driver.RequestKeys | dask/tests/test_async.py:91-92 | `flatten`: a single-key request names exactly that key. A list request names the keys of each of its items and no other key. |
| Driver.RequestsKeys | dask/tests/test_async.py:92-97 | The keys of a list of requests are exactly the union of the keys of its items: each item's keys are included, and every key belongs to some item. |
| Driver.NestedGet | dask/tests/test_async.py:91-97 | `nested_get`: a single key gives `cache[key]`. A list request gives a tuple with one element per item, the i-th being the answer to the i-th item. |
| Driver.NestedGets | dask/tests/test_async.py:92-97 | A list request gives a tuple whose elements answer the list's requests, in order. |
| Driver.CachedIsReference | dask/tests/test_async.py:89-97 | Reading a request from a cache of consistent results gives the reference answer. |
| Driver.NoRankWhenStuck | dask/tests/test_async.py:89-92 | If a consistent state has nothing ready or running but tasks still waiting, the graph has no acyclic ranking. |
| Driver.Completion | dask/tests/test_async.py:89-92 | When nothing waits, is ready or runs, every task has finished and every requested key is still cached. |
| Driver.StartBetween | dask/tests/test_async.py:13-34 | The start state satisfies the driver's loop invariant, with the literals as the record of values. |
| Driver.DriverStep | dask/tests/test_async.py:89-92 | One successful round keeps the loop invariant, extends the record by the new value, and shrinks the set of unfinished keys. |
| Driver.FailureIsReference | dask/tests/test_async.py:89-92 | A task that fails during a run fails with the same error under every acyclic ranking of the reference semantics. |
| Driver.AnswerIsReference | dask/tests/test_async.py:89-97 | At the end of a run, the requested keys are cached, the recorded ranks witness acyclicity, and `nested_get` gives the reference answer. |
| Driver.StuckMeansCycle | dask/tests/test_async.py:89-92 | A run that ends with keys still waiting was given a cyclic graph. |
| Driver.RecordIsRank | dask/tests/test_async.py:89-92 | The rounds in which keys finished form an acyclic ranking of the graph. |
| Driver.Round | dask/tests/test_async.py:89-92 | A round pops the last ready key and runs its task on the cache as it was. On failure the new state is the popped state, and the error is the key's reference error. On success the new state is: pop, then store the result, then apply `finish_task`; the loop invariant holds again. |
| Driver.RunRounds | dask/tests/test_async.py:89-97 | The loop ends in a cycle error, the reference error of a failing task, or the reference answer to the request. |
| Driver.GetSync | dask/tests/test_async.py:89-97 | `get_sync` reports a missing output, or a graph `start_state_from_dask` refuses (a dangling reference), exactly when there is one. Any other error is a proven cycle or a task's reference error. Success is the reference answer, shaped like the request, and implies that every key of the graph evaluates without error. |
| Scenarios.SumInts | dask/tests/test_async.py:96 | `sum` of a list succeeds exactly when every element is an integer. |
| Scenarios.DiamondEvaluates | dask/tests/test_async.py:89-92 | The diamond graph is acyclic and evaluates to `x=1, y=2, z=2, w=4`. |
| Scenarios.GetExample | dask/tests/test_async.py:91 | `get_sync(dsk, 'w') == 4`. |
| Scenarios.GetListExample | dask/tests/test_async.py:92 | `get_sync(dsk, ['w', 'z']) == (4, 2)`. |
| Scenarios.NestedEvaluates | dask/tests/test_async.py:95-97 | The nested graph is acyclic and evaluates to `x=1, y=2, a=3, b=3`. The argument `['x', 'y']` is resolved element-wise. |
| Scenarios.NestedGetExample | dask/tests/test_async.py:95-97 | `get_sync(dsk, ['a', 'b']) == (3, 3)`. |
| Scenarios.UnneededFailureExample | dask/tests/test_async.py:89-92 | Requesting only `c` of `{a: (f,), c: (g,)}`, where `f` raises and `g` returns 7, ends in `TaskFailed(a)`: the driver also runs tasks the request does not need. |

## Left out

- `dask/async.py`, the module that implements the scheduler, is not part of this model.
- Executor.FinishTransition: `finish_task` on a key that is not running, or whose dependents are not all waiting, is excluded by `CanFinish` rather than modelled. `Invariants.RunningFacts` proves that every running key of a consistent state meets `CanFinish`, so the driver never reaches these cases.
- Executor.FinishTransition: a newly ready key is appended to `ready`, after the keys already there. It is not inserted at its priority position. The dependents are visited in increasing priority, so the keys a single `finish_task` appends are in priority order among themselves. This agrees with insertion whenever `ready` is empty when a task finishes, the case at `dask/tests/test_async.py:51-52`. Once other keys are ready when a task finishes, `ready` is no longer in priority order. The driver, which pops the last ready key, then does not necessarily run the most urgent ready key. For example, with priorities a=1, b=5, c=0 on `{a: (f,), b: (f,), c: (f, 'b')}`, `ready` starts as `[a, b]`, finishing `b` gives `[a, c]`, and `c` runs next while `a` is ready (`Scenarios.AppendedAfterReady`). "`ready` is sorted by priority" is therefore an invariant of the start state only.
- `order`, the static priority algorithm (`dask/tests/test_async.py:142-191`), is not modelled. Priorities are an input map over the graph's keys with no two alike. Its depth-first, grouping and release-preference behaviour is not stated.
- The threaded driver `get` and the `start_callback`/`end_callback` hooks (`dask/tests/test_async.py:119-135`) are concurrency and a worker pool. Only the sequential driver is modelled.
- `state_to_networkx` (`dask/tests/test_async.py:81-86`) is an export to a foreign graph library.
- The `Chest` cache and `dask.set_options` (`dask/tests/test_async.py:100-111`) are an external store and global configuration. The cache is a plain map.
- Task function bodies are a parameter `exec` of the driver. The scenarios use integer `inc`, `add` and `sum`.
- Driver.GetSync: computes every key of the graph, with the requested keys protected from release. It does not stop once the requested keys are cached. So a failing task that the request does not need still ends the run with that task's error. For example, requesting `c` of `{a: (f,), c: (g,)}` when `f` raises gives `TaskFailed(a)` (`Scenarios.UnneededFailureExample`). `dask/async.py` is not part of this model, so whether its loop also runs such tasks is not stated here.
- Driver.GetSync: on a cyclic graph the real driver would block or fail. The model stops when nothing is ready and returns `Err(Cycle)`, proved to happen only on graphs with no acyclic ranking. Since success implies an acyclic ranking, a cyclic graph with its references closed ends in `Err(Cycle)` or in a task's error.
- Driver.GetSync: a failing task ends the run with its error. Re-raising with the original traceback and the state of the cache after a failure are not modelled.
- Keys.SortKey: models the two key shapes the tests use, plain strings and tuples of a string name and integer indices. Other Python key types are not modelled.
- Python's string comparison is modelled by code point. Unicode normalisation is not modelled.
