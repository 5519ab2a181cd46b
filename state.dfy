/**
  The scheduling state of one execution request and `start_state_from_dask`,
  which builds it from a task graph.

  The state records which values are cached, the dependency relation in both
  directions, which tasks still wait for which unfinished dependencies, which
  cached values still have readers (`waiting_data`), the ready list (in
  priority order in the start state) with its membership mirror `ready-set`, and the running,
  finished and released keys.
 */
module SchedulingState {
  import opened Keys
  import opened Results
  import opened Graphs
  import opened Priority

  datatype State = State(
    cache: map<Key, Value>,
    dependencies: map<Key, set<Key>>,
    dependents: map<Key, set<Key>>,
    waiting: map<Key, set<Key>>,
    waitingData: map<Key, set<Key>>,
    ready: seq<Key>,
    readySet: set<Key>,
    running: set<Key>,
    finished: set<Key>,
    released: set<Key>)

  /** A call or alias refers to a key that is not in the graph. */
  datatype GraphError = MissingDependency

  /**
    `start_state_from_dask(dsk)`: literals are cached, every other key waits
    for its dependencies that are not cached literals, and the keys that wait
    for nothing form the ready list, sorted by priority.
   */
  function StartStateFromDask(dsk: Graph, prio: map<Key, int>): (r: Result<State, GraphError>)
    requires PriorityOK(prio, dsk.Keys)
    ensures r.Err? <==> !RefsClosed(dsk)
  {
    if !RefsClosed(dsk) then Err(MissingDependency)
    else
      var readySet := InitiallyReady(dsk);
      Ok(State(LiteralValues(dsk), Dependencies(dsk), Dependents(dsk),
               InitialWaiting(dsk), InitialWaitingData(dsk),
               SortByPriority(readySet, prio), readySet, {}, {}, {}))
  }

  /** The initial cache: the value of every literal entry. */
  function LiteralValues(dsk: Graph): (c: map<Key, Value>)
    ensures c.Keys == Literals(dsk)
    ensures forall k :: k in c ==> c[k] == dsk[k].value
  {
    map k | k in dsk && dsk[k].Literal? :: dsk[k].value
  }

  /** Every task, with the dependencies that are not in the initial cache. */
  function Pending(dsk: Graph): (p: map<Key, set<Key>>)
    ensures p.Keys == Tasks(dsk)
    ensures forall k :: k in p ==> p[k] == DepsOf(dsk[k]) - LiteralValues(dsk).Keys
  {
    var cache := LiteralValues(dsk);
    map k | k in dsk && !dsk[k].Literal? :: DepsOf(dsk[k]) - cache.Keys
  }

  /** The tasks with no pending dependency. */
  function InitiallyReady(dsk: Graph): (ready: set<Key>)
    ensures forall k :: k in ready <==> k in dsk && !dsk[k].Literal? && DepsOf(dsk[k]) <= Literals(dsk)
  {
    var pending := Pending(dsk);
    PendingEmpty(dsk);
    set k | k in pending && pending[k] == {}
  }

  /** The tasks with pending dependencies, and those dependencies. */
  function InitialWaiting(dsk: Graph): (w: map<Key, set<Key>>)
    ensures forall k :: k in w <==> k in dsk && !dsk[k].Literal? && !(DepsOf(dsk[k]) <= Literals(dsk))
    ensures forall k :: k in w ==> w[k] == DepsOf(dsk[k]) - Literals(dsk)
  {
    var pending := Pending(dsk);
    PendingEmpty(dsk);
    map k | k in pending && pending[k] != {} :: pending[k]
  }

  /** A task has nothing pending exactly when all it reads is a literal. */
  lemma PendingEmpty(dsk: Graph)
    ensures forall k :: k in Pending(dsk) ==> (Pending(dsk)[k] == {} <==> DepsOf(dsk[k]) <= Literals(dsk))
  {
    var pending := Pending(dsk);
    forall k | k in pending
      ensures pending[k] == {} <==> DepsOf(dsk[k]) <= Literals(dsk)
    {
      assert pending[k] == DepsOf(dsk[k]) - Literals(dsk);
      if DepsOf(dsk[k]) <= Literals(dsk) {
        assert forall d :: d !in pending[k];
      } else {
        var d :| d in DepsOf(dsk[k]) && d !in Literals(dsk);
        assert d in pending[k];
      }
    }
  }

  /** Every key that has readers, with all of them. */
  function InitialWaitingData(dsk: Graph): (wd: map<Key, set<Key>>)
    ensures forall k :: k in wd <==> k in dsk && Readers(dsk, k) != {}
    ensures forall k :: k in wd ==> wd[k] == Readers(dsk, k)
  {
    var dependents := Dependents(dsk);
    map k | k in dependents && dependents[k] != {} :: dependents[k]
  }

  /** The keys whose values are available for good: literals and finished tasks. */
  function Done(g: Graph, s: State): set<Key>
  {
    Literals(g) + s.finished
  }

  /** Every task is in exactly one of waiting, ready, running and finished; a literal in none. */
  ghost predicate Lifecycle(g: Graph, s: State)
  {
    && s.waiting.Keys + s.readySet + s.running + s.finished == Tasks(g)
    && s.waiting.Keys !! s.readySet && s.waiting.Keys !! s.running && s.waiting.Keys !! s.finished
    && s.readySet !! s.running && s.readySet !! s.finished
    && s.running !! s.finished
  }

  /** A task waits exactly for its dependencies that are not done, and only while there are some. */
  ghost predicate WaitingExact(g: Graph, s: State)
  {
    forall t :: t in g && !g[t].Literal? ==>
      if t in s.waiting then s.waiting[t] == DepsOf(g[t]) - Done(g, s) && s.waiting[t] != {}
      else DepsOf(g[t]) <= Done(g, s)
  }

  /** `ready` lists the keys of `ready-set`, each once. */
  ghost predicate ReadyMirrors(s: State)
  {
    Distinct(s.ready) && Elems(s.ready) == s.readySet
  }

  /** A key with readers that is not released keeps the set of its unfinished readers. */
  ghost predicate WaitingDataExact(g: Graph, s: State)
  {
    && (forall k :: k in s.waitingData <==> k in g && Readers(g, k) != {} && k !in s.released)
    && (forall k :: k in s.waitingData ==> s.waitingData[k] == Readers(g, k) - s.finished)
  }

  /** Released are exactly the unprotected keys that have readers, all of them finished. */
  ghost predicate ReleasedExact(g: Graph, protected: set<Key>, s: State)
  {
    forall k :: k in s.released <==>
      k in g && Readers(g, k) != {} && Readers(g, k) <= s.finished && k !in protected
  }

  /** Outside the running keys, a key is cached exactly while it is done and not released. */
  ghost predicate CacheExact(g: Graph, s: State)
  {
    && (forall k :: k in s.cache ==> k in g)
    && (forall k :: k in g && k !in s.running ==>
          (k in s.cache <==> (g[k].Literal? || k in s.finished) && k !in s.released))
  }

  /**
    The invariants of the scheduling state of graph `g`, with priorities
    `prio` and the requested keys `protected`, that every transition keeps.
   */
  ghost predicate Consistent(g: Graph, prio: map<Key, int>, protected: set<Key>, s: State)
  {
    && RefsClosed(g)
    && PriorityOK(prio, g.Keys)
    && s.dependencies == Dependencies(g)
    && s.dependents == Dependents(g)
    && Lifecycle(g, s)
    && WaitingExact(g, s)
    && ReadyMirrors(s)
    && WaitingDataExact(g, s)
    && ReleasedExact(g, protected, s)
    && CacheExact(g, s)
  }

  /**
    The initial state: literals (and only literals: not aliases, not calls)
    are cached with their values; `dependencies` and `dependents` hold every
    key, as exact inverses; a task is ready exactly when all it reads is a
    cached literal, and otherwise waits for the rest; `waiting_data` holds
    the readers of every key that has some, and no entry for a sink.
   */
  lemma StartStateShape(g: Graph, prio: map<Key, int>, k: Key, j: Key)
    requires RefsClosed(g) && PriorityOK(prio, g.Keys)
    ensures StartStateFromDask(g, prio).Ok?
    ensures var s := StartStateFromDask(g, prio).value;
      && (k in s.cache <==> k in g && g[k].Literal?)
      && (k in s.cache ==> s.cache[k] == g[k].value)
      && s.dependencies.Keys == g.Keys == s.dependents.Keys
      && (k in g && j in g ==> (j in s.dependencies[k] <==> k in s.dependents[j]))
      && (k in s.readySet <==> k in g && !g[k].Literal? && DepsOf(g[k]) <= Literals(g))
      && (k in s.waiting <==> k in g && !g[k].Literal? && !(DepsOf(g[k]) <= Literals(g)))
      && (k in s.waiting ==> s.waiting[k] == DepsOf(g[k]) - Literals(g))
      && Elems(s.ready) == s.readySet && Increasing(s.ready, prio)
      && (k in s.waitingData <==> k in g && s.dependents[k] != {})
      && (k in s.waitingData ==> s.waitingData[k] == s.dependents[k])
      && s.running == s.finished == s.released == {}
  {
  }

  /** The initial state satisfies every invariant. */
  lemma StartStateConsistent(g: Graph, prio: map<Key, int>, protected: set<Key>)
    requires RefsClosed(g) && PriorityOK(prio, g.Keys)
    ensures StartStateFromDask(g, prio).Ok?
    ensures Consistent(g, prio, protected, StartStateFromDask(g, prio).value)
  {
    var s := StartStateFromDask(g, prio).value;
    StartLifecycle(g, prio);
    StartWaitingExact(g, prio);
    StartWaitingDataExact(g, prio);
    StartCacheExact(g, prio);
    IncreasingDistinct(s.ready, prio);
  }

  lemma StartLifecycle(g: Graph, prio: map<Key, int>)
    requires RefsClosed(g) && PriorityOK(prio, g.Keys)
    ensures StartStateFromDask(g, prio).Ok?
    ensures Lifecycle(g, StartStateFromDask(g, prio).value)
  {
    var s := StartStateFromDask(g, prio).value;
    assert s.waiting == InitialWaiting(g) && s.readySet == InitiallyReady(g);
    InitialLifecycle(g, s);
  }

  lemma InitialLifecycle(g: Graph, s: State)
    requires s.waiting == InitialWaiting(g) && s.readySet == InitiallyReady(g)
    requires s.running == s.finished == {}
    ensures Lifecycle(g, s)
  {
    var w, ready := InitialWaiting(g), InitiallyReady(g);
    forall k ensures k in w.Keys + ready <==> k in Tasks(g) {
    }
    forall k | k in w.Keys ensures k !in ready {
    }
    assert w.Keys + ready + {} == w.Keys + ready;
  }

  lemma StartWaitingExact(g: Graph, prio: map<Key, int>)
    requires RefsClosed(g) && PriorityOK(prio, g.Keys)
    ensures StartStateFromDask(g, prio).Ok?
    ensures WaitingExact(g, StartStateFromDask(g, prio).value)
  {
    var s := StartStateFromDask(g, prio).value;
    assert Done(g, s) == Literals(g);
  }

  lemma StartWaitingDataExact(g: Graph, prio: map<Key, int>)
    requires RefsClosed(g) && PriorityOK(prio, g.Keys)
    ensures StartStateFromDask(g, prio).Ok?
    ensures WaitingDataExact(g, StartStateFromDask(g, prio).value)
  {
    StartWaitingDataFields(g, prio);
    InitialWaitingDataExact(g, StartStateFromDask(g, prio).value);
  }

  /** Before anything has run, `waiting_data` holds every reader of every key that has one. */
  lemma InitialWaitingDataExact(g: Graph, s: State)
    requires s.waitingData == InitialWaitingData(g) && s.released == {} && s.finished == {}
    ensures WaitingDataExact(g, s)
  {
    forall k | k in s.waitingData ensures s.waitingData[k] == Readers(g, k) - s.finished {
      assert Readers(g, k) - {} == Readers(g, k);
    }
  }

  lemma StartWaitingDataFields(g: Graph, prio: map<Key, int>)
    requires RefsClosed(g) && PriorityOK(prio, g.Keys)
    ensures StartStateFromDask(g, prio).Ok?
    ensures var s := StartStateFromDask(g, prio).value;
      s.waitingData == InitialWaitingData(g) && s.released == {} && s.finished == {}
  {
  }

  lemma StartCacheExact(g: Graph, prio: map<Key, int>)
    requires RefsClosed(g) && PriorityOK(prio, g.Keys)
    ensures StartStateFromDask(g, prio).Ok?
    ensures CacheExact(g, StartStateFromDask(g, prio).value)
  {
  }
}
