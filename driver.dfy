/**
  `get_sync`: the sequential driver.

  It builds the start state, then repeatedly pops the last ready key, runs its task on the cached values of its dependencies, stores
  the result in `cache` and applies `finish_task`, with the requested keys
  protected from release.  When nothing is left ready it returns the
  requested values shaped like the request: one key gives its value, a list
  of requests gives a tuple of their results, in order.

  The run is proved against the reference evaluation `Eval` of the graph:
  whatever order the priorities impose, the values returned are the ones the
  graph defines.
 */
module Driver {
  import opened Keys
  import opened Results
  import opened Graphs
  import opened Priority
  import opened SchedulingState
  import opened Executor
  import opened Invariants

  /** What `get_sync` is asked for: a key, or a list of requests. */
  datatype Request = One(key: Key) | Many(items: seq<Request>)

  datatype RunError =
    | MissingOutput                          // a requested key is not in the graph
    | BadGraph(cause: GraphError)            // the graph cannot be scheduled (start_state_from_dask)
    | Cycle                                  // no task can become ready
    | TaskFailed(key: Key, message: string)  // a task function raised

  /** `flatten(result)`: every key a request names, and nothing else. */
  function RequestKeys(r: Request): (ks: set<Key>)
    ensures r.One? ==> ks == {r.key}
    ensures r.Many? ==> forall i :: 0 <= i < |r.items| ==> RequestKeys(r.items[i]) <= ks
    ensures r.Many? ==> forall k :: k in ks ==> exists i :: 0 <= i < |r.items| && k in RequestKeys(r.items[i])
  {
    match r
    case One(k) => {k}
    case Many(items) => RequestsKeys(items)
  }

  /** The keys a list of requests names: the union of the keys of its elements. */
  function RequestsKeys(items: seq<Request>): (ks: set<Key>)
    ensures forall i :: 0 <= i < |items| ==> RequestKeys(items[i]) <= ks
    ensures forall k :: k in ks ==> exists i :: 0 <= i < |items| && k in RequestKeys(items[i])
  {
    if items == [] then {} else
      var rest := RequestsKeys(items[1..]);
      assert forall k :: k in rest ==> exists i :: 1 <= i < |items| && k in RequestKeys(items[i]) by {
        forall k | k in rest ensures exists i :: 1 <= i < |items| && k in RequestKeys(items[i]) {
          var j :| 0 <= j < |items[1..]| && k in RequestKeys(items[1..][j]);
          assert items[1..][j] == items[j + 1];
        }
      }
      RequestKeys(items[0]) + rest
  }

  /** `nested_get(result, cache)`: the requested values, shaped like the request. */
  function NestedGet(r: Request, cache: map<Key, Value>): (v: Value)
    requires RequestKeys(r) <= cache.Keys
    ensures r.One? ==> v == cache[r.key]
    ensures r.Many? ==> v.VTuple? && |v.items| == |r.items|
    ensures r.Many? ==> forall i :: 0 <= i < |r.items| ==>
      RequestKeys(r.items[i]) <= cache.Keys && v.items[i] == NestedGet(r.items[i], cache)
  {
    match r
    case One(k) => cache[k]
    case Many(items) => VTuple(NestedGets(items, cache))
  }

  /** A list request gives a tuple whose elements answer the list's requests, in order. */
  function NestedGets(items: seq<Request>, cache: map<Key, Value>): (vs: seq<Value>)
    requires RequestsKeys(items) <= cache.Keys
    ensures |vs| == |items|
    ensures forall i :: 0 <= i < |items| ==>
      RequestKeys(items[i]) <= cache.Keys && vs[i] == NestedGet(items[i], cache)
  {
    if items == [] then [] else [NestedGet(items[0], cache)] + NestedGets(items[1..], cache)
  }

  /** The reference answer to a request on an acyclic graph; the first failing key decides an error. */
  function ReferenceGet(g: Graph, rank: map<Key, nat>, exec: Exec, r: Request): Result<Value, string>
    requires IsRank(g, rank) && RequestKeys(r) <= g.Keys
  {
    match r
    case One(k) => Eval(g, rank, exec, k)
    case Many(items) =>
      match ReferenceGets(g, rank, exec, items)
      case Ok(vs) => Ok(VTuple(vs))
      case Err(e) => Err(e)
  }

  function ReferenceGets(g: Graph, rank: map<Key, nat>, exec: Exec, items: seq<Request>): Result<seq<Value>, string>
    requires IsRank(g, rank) && RequestsKeys(items) <= g.Keys
  {
    if items == [] then Ok([])
    else
      match ReferenceGet(g, rank, exec, items[0])
      case Err(e) => Err(e)
      case Ok(v) =>
        match ReferenceGets(g, rank, exec, items[1..])
        case Ok(vs) => Ok([v] + vs)
        case Err(e) => Err(e)
  }

  /** Reading a request from a cache that holds consistent results gives the reference answer. */
  lemma {:induction false} CachedIsReference(g: Graph, rank: map<Key, nat>, exec: Exec,
                                             values: map<Key, Value>, cache: map<Key, Value>, r: Request)
    requires IsRank(g, rank) && Agree(g, values, exec)
    requires RequestKeys(r) <= cache.Keys && RequestKeys(r) <= g.Keys
    requires forall k :: k in cache ==> k in values && cache[k] == values[k]
    ensures ReferenceGet(g, rank, exec, r) == Ok(NestedGet(r, cache))
  {
    match r
    case One(k) =>
      AgreeIsEval(g, rank, exec, values, k);
    case Many(items) =>
      CachedAreReference(g, rank, exec, values, cache, items);
  }

  lemma {:induction false} CachedAreReference(g: Graph, rank: map<Key, nat>, exec: Exec,
                                              values: map<Key, Value>, cache: map<Key, Value>, items: seq<Request>)
    requires IsRank(g, rank) && Agree(g, values, exec)
    requires RequestsKeys(items) <= cache.Keys && RequestsKeys(items) <= g.Keys
    requires forall k :: k in cache ==> k in values && cache[k] == values[k]
    ensures ReferenceGets(g, rank, exec, items) == Ok(NestedGets(items, cache))
  {
    if items != [] {
      CachedIsReference(g, rank, exec, values, cache, items[0]);
      CachedAreReference(g, rank, exec, values, cache, items[1..]);
    }
  }

  /** The literals alone are a consistent record of results. */
  lemma LiteralsAgree(g: Graph, exec: Exec)
    ensures Agree(g, LiteralValues(g), exec)
  {
  }

  /** In a consistent state where nothing is ready or running, no task is left waiting unless the graph has a cycle. */
  lemma {:induction false} NoRankWhenStuck(g: Graph, prio: map<Key, int>, protected: set<Key>, s: State, rank: map<Key, nat>)
    requires Consistent(g, prio, protected, s)
    requires s.ready == [] && s.running == {} && s.waiting != map[]
    ensures !IsRank(g, rank)
  {
    if IsRank(g, rank) {
      assert s.readySet == {} by {
        ElemsEmpty(s.ready);
      }
      assert s.waiting.Keys <= g.Keys;
      MinRankExists(s.waiting.Keys, rank);
    }
  }

  lemma {:induction false} MinRankExists(keys: set<Key>, rank: map<Key, nat>)
    requires keys != {} && keys <= rank.Keys
    ensures exists m :: m in keys && forall x :: x in keys ==> rank[m] <= rank[x]
    decreases |keys|
  {
    var y :| y in keys;
    if keys - {y} != {} {
      MinRankExists(keys - {y}, rank);
      var m :| m in keys - {y} && forall x :: x in keys - {y} ==> rank[m] <= rank[x];
      if rank[y] < rank[m] {
        assert forall x :: x in keys ==> rank[y] <= rank[x];
      } else {
        assert forall x :: x in keys ==> rank[m] <= rank[x];
      }
    } else {
      assert forall x :: x in keys ==> rank[y] <= rank[x];
    }
  }

  /**
    When nothing is waiting, ready or running, every task has finished, and
    every requested key of the graph is still cached.
   */
  lemma Completion(g: Graph, protected: set<Key>, s: State)
    requires Lifecycle(g, s) && ReadyMirrors(s) && ReleasedExact(g, protected, s) && CacheExact(g, s)
    requires s.waiting == map[] && s.ready == [] && s.running == {}
    ensures s.finished == Tasks(g) && Done(g, s) == g.Keys
    ensures forall k :: k in protected && k in g ==> k in s.cache
  {
    assert s.readySet == {} by {
      ElemsEmpty(s.ready);
    }
    assert s.waiting.Keys == {};
  }

  /** The values of the done keys, consistent with the graph; the cache holds some of them. */
  ghost predicate ValuesRecord(g: Graph, exec: Exec, s: State, values: map<Key, Value>)
  {
    && values.Keys == Done(g, s)
    && Agree(g, values, exec)
    && (forall k :: k in s.cache ==> k in values && s.cache[k] == values[k])
  }

  /** Ranks up to `n` for keys of the graph, each above the ranks of its dependencies. */
  ghost predicate RankRecord(g: Graph, rank: map<Key, nat>, n: nat)
  {
    && rank.Keys <= g.Keys
    && (forall k :: k in rank ==> rank[k] <= n)
    && (forall k, d :: k in rank && d in DepsOf(g[k]) ==> d in rank && rank[d] < rank[k])
  }

  /**
    The ghost record the driver keeps after `n` rounds: the values of done
    keys and the round each was done in.
   */
  ghost predicate Record(g: Graph, exec: Exec, s: State, values: map<Key, Value>, rank: map<Key, nat>, n: nat)
  {
    && ValuesRecord(g, exec, s, values)
    && rank.Keys == values.Keys
    && RankRecord(g, rank, n)
  }

  /** The literals, all done before any task runs. */
  function LiteralRanks(g: Graph): map<Key, nat>
  {
    map k | k in Literals(g) :: 0
  }

  /** The record of a start state: the literals are the values, all of rank 0. */
  lemma StartRecord(g: Graph, exec: Exec, s: State)
    requires s.cache == LiteralValues(g) && s.finished == {}
    ensures Record(g, exec, s, LiteralValues(g), LiteralRanks(g), 0)
  {
    LiteralsAgree(g, exec);
    assert Done(g, s) == Literals(g);
  }

  /** Running a key whose dependencies are cached and finishing it extends the record by its value, ranked last. */
  lemma RecordStep(g: Graph, exec: Exec, s: State, t: State, key: Key, v: Value,
                   values: map<Key, Value>, rank: map<Key, nat>, n: nat)
    requires Record(g, exec, s, values, rank, n)
    requires key in g && key !in Done(g, s) && DepsOf(g[key]) <= s.cache.Keys
    requires ExecuteTask(g[key], s.cache, exec) == Ok(v)
    requires t.finished == s.finished + {key}
    requires forall k :: k in t.cache ==> k in s.cache[key := v] && t.cache[k] == s.cache[key := v][k]
    ensures Record(g, exec, t, values[key := v], rank[key := n + 1], n + 1)
  {
    ValuesStep(g, exec, s, t, key, v, values);
    RankStep(g, rank, n, key);
  }

  /** Running a key whose dependencies are cached and finishing it extends the values by its result. */
  lemma ValuesStep(g: Graph, exec: Exec, s: State, t: State, key: Key, v: Value, values: map<Key, Value>)
    requires ValuesRecord(g, exec, s, values)
    requires key in g && key !in Done(g, s) && DepsOf(g[key]) <= s.cache.Keys
    requires ExecuteTask(g[key], s.cache, exec) == Ok(v)
    requires t.finished == s.finished + {key}
    requires forall k :: k in t.cache ==> k in s.cache[key := v] && t.cache[k] == s.cache[key := v][k]
    ensures ValuesRecord(g, exec, t, values[key := v])
  {
    var values' := values[key := v];
    assert Done(g, t) == Done(g, s) + {key};
    ExecuteLocal(g[key], s.cache, values', exec);
    forall k | k in values
      ensures ExecuteTask(g[k], values', exec) == ExecuteTask(g[k], values, exec)
    {
      ExecuteLocal(g[k], values, values', exec);
    }
  }

  /** The key finished last is ranked above everything done before it. */
  lemma RankStep(g: Graph, rank: map<Key, nat>, n: nat, key: Key)
    requires RankRecord(g, rank, n)
    requires key in g && key !in rank && DepsOf(g[key]) <= rank.Keys
    ensures RankRecord(g, rank[key := n + 1], n + 1)
  {
    var rank' := rank[key := n + 1];
    forall k, d | k in rank' && d in DepsOf(g[k])
      ensures d in rank' && rank'[d] < rank'[k]
    {
      if k == key {
        assert d in rank.Keys;
      }
    }
  }

  /** The key the driver pops next is a task that is not done, with its dependencies cached. */
  lemma ReadyFacts(g: Graph, prio: map<Key, int>, protected: set<Key>, s: State)
    requires Consistent(g, prio, protected, s) && s.ready != []
    ensures var key := s.ready[|s.ready| - 1];
      key in s.readySet && key in g && key !in Done(g, s) && DepsOf(g[key]) <= s.cache.Keys
  {
    var key := s.ready[|s.ready| - 1];
    assert key in Elems(s.ready);
    DepsCached(g, prio, protected, s, key);
  }

  /**
    One round of the driver from a state with nothing running: pop the last
    ready key, store the value its task computed, finish it.  The state stays
    consistent with nothing running, the record grows by the new value, and
    one more key of the graph is finished.
   */
  lemma DriverStep(g: Graph, prio: map<Key, int>, protected: set<Key>, exec: Exec,
                   s: State, values: map<Key, Value>, rank: map<Key, nat>, n: nat, v: Value)
    requires Between(g, prio, protected, exec, s, values, rank, n) && s.ready != []
    requires var key := s.ready[|s.ready| - 1];
      && key in g && DepsOf(g[key]) <= s.cache.Keys
      && ExecuteTask(g[key], s.cache, exec) == Ok(v)
    ensures var key := s.ready[|s.ready| - 1];
      var s2 := PopTransition(s).(cache := s.cache[key := v]);
      && CanFinish(s2, key, prio)
      && var t := FinishTransition(s2, key, protected, prio);
      && Between(g, prio, protected, exec, t, values[key := v], rank[key := n + 1], n + 1)
      && |g.Keys - t.finished| < |g.Keys - s.finished|
  {
    var key := s.ready[|s.ready| - 1];
    ReadyFacts(g, prio, protected, s);
    var s1 := PopTransition(s);
    PopPreserves(g, prio, protected, s);
    var s2 := s1.(cache := s.cache[key := v]);
    StorePreserves(g, prio, protected, s1, key, v);
    FinishPreserves(g, prio, protected, s2, key);
    FinishEffects(g, prio, protected, s2, key);
    var t := FinishTransition(s2, key, protected, prio);
    assert t.cache == s2.cache - Freed(s2, key, protected);
    RecordStep(g, exec, s, t, key, v, values, rank, n);
    FinishedGrows(g.Keys, s.finished, key);
  }

  /** What holds between the driver's rounds. */
  ghost predicate Between(g: Graph, prio: map<Key, int>, protected: set<Key>, exec: Exec,
                          s: State, values: map<Key, Value>, rank: map<Key, nat>, n: nat)
  {
    Consistent(g, prio, protected, s) && s.running == {} && Record(g, exec, s, values, rank, n)
  }

  lemma StartBetween(g: Graph, prio: map<Key, int>, protected: set<Key>, exec: Exec, s: State)
    requires RefsClosed(g) && PriorityOK(prio, g.Keys)
    requires StartStateFromDask(g, prio) == Ok(s)
    ensures Between(g, prio, protected, exec, s, LiteralValues(g), LiteralRanks(g), 0)
  {
    assert s.cache == LiteralValues(g) && s.finished == {} && s.running == {};
    hide Consistent;
    hide Record;
    StartStateConsistent(g, prio, protected);
    StartRecord(g, exec, s);
  }

  lemma BetweenReady(g: Graph, prio: map<Key, int>, protected: set<Key>, exec: Exec,
                     s: State, values: map<Key, Value>, rank: map<Key, nat>, n: nat)
    requires Between(g, prio, protected, exec, s, values, rank, n) && s.ready != []
    ensures var key := s.ready[|s.ready| - 1];
      key in s.readySet && key in g && key !in Done(g, s) && DepsOf(g[key]) <= s.cache.Keys
  {
    ReadyFacts(g, prio, protected, s);
  }

  /** Keys left waiting with nothing ready or running mean the graph has a cycle. */
  lemma StuckMeansCycle(g: Graph, prio: map<Key, int>, protected: set<Key>, exec: Exec,
                        s: State, values: map<Key, Value>, rank: map<Key, nat>, n: nat)
    requires Between(g, prio, protected, exec, s, values, rank, n)
    requires s.ready == [] && s.waiting != map[]
    ensures forall rank' :: !IsRank(g, rank')
  {
    forall rank' ensures !IsRank(g, rank') {
      NoRankWhenStuck(g, prio, protected, s, rank');
    }
  }

  /**
    When nothing is left, the requested keys are cached, the rounds rank the
    graph, and the cached values answer the request as the reference does.
   */
  lemma AnswerIsReference(g: Graph, prio: map<Key, int>, protected: set<Key>, exec: Exec,
                          s: State, values: map<Key, Value>, rank: map<Key, nat>, n: nat, request: Request)
    requires Between(g, prio, protected, exec, s, values, rank, n)
    requires s.ready == [] && s.waiting == map[]
    requires protected == RequestKeys(request) && protected <= g.Keys
    ensures RequestKeys(request) <= s.cache.Keys && IsRank(g, rank)
    ensures forall rank' :: IsRank(g, rank') ==>
      ReferenceGet(g, rank', exec, request) == Ok(NestedGet(request, s.cache))
    ensures forall rank', k :: IsRank(g, rank') && k in g ==> Eval(g, rank', exec, k).Ok?
  {
    Completion(g, protected, s);
    RecordIsRank(g, prio, protected, exec, s, values, rank, n);
    forall rank', k | IsRank(g, rank') && k in g
      ensures Eval(g, rank', exec, k).Ok?
    {
      AgreeIsEval(g, rank', exec, values, k);
    }
    forall rank' | IsRank(g, rank')
      ensures ReferenceGet(g, rank', exec, request) == Ok(NestedGet(request, s.cache))
    {
      CachedIsReference(g, rank', exec, values, s.cache, request);
    }
  }

  /** A task that fails on consistent dependency values fails the same way in the reference semantics. */
  lemma FailureIsReference(g: Graph, prio: map<Key, int>, protected: set<Key>, exec: Exec, s: State, values: map<Key, Value>, rank0: map<Key, nat>,
                           n: nat, key: Key, msg: string)
    requires Between(g, prio, protected, exec, s, values, rank0, n) && key in g
    requires DepsOf(g[key]) <= s.cache.Keys && ExecuteTask(g[key], s.cache, exec) == Err(msg)
    ensures forall rank :: IsRank(g, rank) ==> Eval(g, rank, exec, key) == Err(msg)
  {
    forall rank | IsRank(g, rank)
      ensures Eval(g, rank, exec, key) == Err(msg)
    {
      ExecuteLocal(g[key], s.cache, values, exec);
      FailureIsEvalFailure(g, rank, exec, values, key, msg);
    }
  }

  /** At the end of a run with nothing left, the ranks recorded witness that the graph is acyclic. */
  lemma RecordIsRank(g: Graph, prio: map<Key, int>, protected: set<Key>, exec: Exec,
                     s: State, values: map<Key, Value>, rank: map<Key, nat>, n: nat)
    requires Consistent(g, prio, protected, s) && Record(g, exec, s, values, rank, n)
    requires Done(g, s) == g.Keys
    ensures IsRank(g, rank)
  {
  }

  /**
    `get_sync(dsk, result)`.  A request naming a key outside the graph, or a
    graph whose entries refer outside it, is refused before anything runs.
    Otherwise the tasks run one at a time, the last ready key first; a
    failing task ends the run with its error, and the run ends with `Cycle`
    when keys are left waiting with nothing ready.
   */
  method GetSync(dsk: Graph, request: Request, prio: map<Key, int>, exec: Exec)
      returns (r: Result<Value, RunError>, ghost rank: map<Key, nat>)
    requires PriorityOK(prio, dsk.Keys)
    ensures r == Err(MissingOutput) <==> !(RequestKeys(request) <= dsk.Keys)
    ensures (r.Err? && r.error.BadGraph?) <==> RequestKeys(request) <= dsk.Keys && !RefsClosed(dsk)
    ensures r == Err(Cycle) ==> forall rank' :: !IsRank(dsk, rank')
    ensures r.Err? && r.error.TaskFailed? ==>
      && r.error.key in dsk
      && forall rank' :: IsRank(dsk, rank') ==> Eval(dsk, rank', exec, r.error.key) == Err(r.error.message)
    ensures r.Ok? ==> IsRank(dsk, rank) && RequestKeys(request) <= dsk.Keys
    ensures r.Ok? ==> forall rank' :: IsRank(dsk, rank') ==> ReferenceGet(dsk, rank', exec, request) == Ok(r.value)
    ensures r.Ok? ==> forall rank', k :: IsRank(dsk, rank') && k in dsk ==> Eval(dsk, rank', exec, k).Ok?
  {
    rank := map[];
    if !(RequestKeys(request) <= dsk.Keys) {
      return Err(MissingOutput), rank;
    }
    var start := StartStateFromDask(dsk, prio);
    if start.Err? {
      return Err(BadGraph(start.error)), rank;
    }
    StartBetween(dsk, prio, RequestKeys(request), exec, start.value);
    var sched := new Scheduler.FromState(start.value);
    r, rank := RunRounds(sched, dsk, prio, request, exec);
  }

  /**
    The rounds of `get_sync` from the start state to the end of the run,
    and the answer read from the cache.
   */
  method RunRounds(sched: Scheduler, dsk: Graph, prio: map<Key, int>, request: Request, exec: Exec)
      returns (r: Result<Value, RunError>, ghost rank: map<Key, nat>)
    requires RequestKeys(request) <= dsk.Keys
    requires Between(dsk, prio, RequestKeys(request), exec, sched.Snapshot(), LiteralValues(dsk), LiteralRanks(dsk), 0)
    modifies sched
    ensures r.Err? ==> r.error == Cycle || r.error.TaskFailed?
    ensures r == Err(Cycle) ==> forall rank' :: !IsRank(dsk, rank')
    ensures r.Err? && r.error.TaskFailed? ==>
      && r.error.key in dsk
      && forall rank' :: IsRank(dsk, rank') ==> Eval(dsk, rank', exec, r.error.key) == Err(r.error.message)
    ensures r.Ok? ==> IsRank(dsk, rank)
    ensures r.Ok? ==> forall rank' :: IsRank(dsk, rank') ==> ReferenceGet(dsk, rank', exec, request) == Ok(r.value)
    ensures r.Ok? ==> forall rank', k :: IsRank(dsk, rank') && k in dsk ==> Eval(dsk, rank', exec, k).Ok?
  {
    hide Between;
    var protected := RequestKeys(request);
    ghost var values := LiteralValues(dsk);
    rank := LiteralRanks(dsk);
    ghost var round := 0;
    while sched.ready != []
      invariant Between(dsk, prio, protected, exec, sched.Snapshot(), values, rank, round)
      decreases |dsk.Keys - sched.finished|
    {
      var key, outcome := Round(sched, dsk, prio, protected, exec, values, rank, round);
      if outcome.Err? {
        return Err(TaskFailed(key, outcome.error)), rank;
      }
      values := values[key := outcome.value];
      rank := rank[key := round + 1];
      round := round + 1;
    }
    if sched.waiting != map[] {
      StuckMeansCycle(dsk, prio, protected, exec, sched.Snapshot(), values, rank, round);
      return Err(Cycle), rank;
    }
    AnswerIsReference(dsk, prio, protected, exec, sched.Snapshot(), values, rank, round, request);
    r := Ok(NestedGet(request, sched.cache));
  }

  /**
    One round of `get_sync`: pop the last ready key and run its task on the
    cache.  A failure leaves the popped state and is the reference failure
    of that key; otherwise the result is stored and `finish_task` applied,
    and the record grows by its value.
   */
  method Round(sched: Scheduler, dsk: Graph, prio: map<Key, int>, protected: set<Key>, exec: Exec,
               ghost values: map<Key, Value>, ghost rank: map<Key, nat>, ghost n: nat)
      returns (key: Key, outcome: Result<Value, string>)
    requires Between(dsk, prio, protected, exec, sched.Snapshot(), values, rank, n) && sched.ready != []
    modifies sched
    ensures key == old(sched.ready)[|old(sched.ready)| - 1]
    ensures key in dsk && DepsOf(dsk[key]) <= old(sched.cache).Keys
    ensures outcome == ExecuteTask(dsk[key], old(sched.cache), exec)
    ensures outcome.Err? ==> sched.Snapshot() == PopTransition(old(sched.Snapshot()))
    ensures outcome.Err? ==> forall rank' :: IsRank(dsk, rank') ==> Eval(dsk, rank', exec, key) == Err(outcome.error)
    ensures outcome.Ok? ==>
      var s2 := PopTransition(old(sched.Snapshot())).(cache := old(sched.cache)[key := outcome.value]);
      && CanFinish(s2, key, prio)
      && sched.Snapshot() == FinishTransition(s2, key, protected, prio)
    ensures outcome.Ok? ==>
      && Between(dsk, prio, protected, exec, sched.Snapshot(), values[key := outcome.value], rank[key := n + 1], n + 1)
      && |dsk.Keys - sched.finished| < |dsk.Keys - old(sched.finished)|
  {
    hide Between;
    ghost var s0 := sched.Snapshot();
    BetweenReady(dsk, prio, protected, exec, s0, values, rank, n);
    key := sched.PopReady();
    outcome := ExecuteTask(dsk[key], sched.cache, exec);
    if outcome.Err? {
      FailureIsReference(dsk, prio, protected, exec, s0, values, rank, n, key, outcome.error);
      return;
    }
    var v := outcome.value;
    DriverStep(dsk, prio, protected, exec, s0, values, rank, n, v);
    sched.StoreResult(key, v);
    ghost var s2 := sched.Snapshot();
    assert s2 == PopTransition(s0).(cache := s0.cache[key := v]);
    sched.FinishTask(key, protected, prio);
    assert sched.Snapshot() == FinishTransition(s2, key, protected, prio);
  }

  lemma FinishedGrows(keys: set<Key>, finished: set<Key>, key: Key)
    requires key in keys && key !in finished
    ensures |keys - (finished + {key})| < |keys - finished|
  {
    assert keys - (finished + {key}) == (keys - finished) - {key};
  }
}
