/**
  The transitions of the scheduler keep the scheduling state consistent.

  Starting from `start_state_from_dask`, the driver alternates three steps:
  pop the last ready key into `running`, store its result in `cache`, and
  apply `finish_task`.  Each keeps `Consistent`, and under `Consistent` the
  effects of `finish_task` read in terms of the graph: a dependent becomes
  ready exactly when everything it reads is done, and a dependency is
  released exactly when all of its readers are finished and it was not
  requested.

  Each invariant is carried across a step by a lemma that assumes only the
  facts it needs about the old and the new state.
 */
module Invariants {
  import opened Keys
  import opened Graphs
  import opened Priority
  import opened SchedulingState
  import opened Executor

  /** The facts about the graph and the dependency maps that no transition changes. */
  ghost predicate Structure(g: Graph, prio: map<Key, int>, s: State)
  {
    && RefsClosed(g)
    && PriorityOK(prio, g.Keys)
    && s.dependencies == Dependencies(g)
    && s.dependents == Dependents(g)
  }

  /** What holds of a running key: it is a task whose dependencies are done, read by waiting tasks. */
  lemma RunningFacts(g: Graph, prio: map<Key, int>, s: State, key: Key)
    requires Structure(g, prio, s) && Lifecycle(g, s) && WaitingExact(g, s) && key in s.running
    ensures key in g && !g[key].Literal?
    ensures DepsOf(g[key]) <= Done(g, s) && key !in Done(g, s) && key !in DepsOf(g[key])
    ensures forall d :: d in Readers(g, key) ==> d in s.waiting && key in s.waiting[d]
    ensures CanFinish(s, key, prio)
  {
    assert key in Tasks(g);
    forall d | d in Readers(g, key)
      ensures d in s.waiting && key in s.waiting[d]
    {
      assert key in DepsOf(g[d]) && !(DepsOf(g[d]) <= Done(g, s));
    }
    DependentsInverse(g, key, key);
  }

  /** A dependent of `key` becomes ready exactly when all it reads is done once `key` is. */
  lemma NewlyReadyMeaning(g: Graph, prio: map<Key, int>, s: State, key: Key)
    requires Structure(g, prio, s) && Lifecycle(g, s) && WaitingExact(g, s) && key in s.running
    ensures key in s.dependents
    ensures forall d :: d in NewlyReady(s, key) <==> d in Readers(g, key) && DepsOf(g[d]) <= Done(g, s) + {key}
    ensures NewlyReady(s, key) <= s.waiting.Keys
  {
    RunningFacts(g, prio, s, key);
    forall d | d in Readers(g, key)
      ensures d in NewlyReady(s, key) <==> DepsOf(g[d]) <= Done(g, s) + {key}
    {
      assert s.waiting[d] == DepsOf(g[d]) - Done(g, s);
    }
  }

  /**
    A dependency of `key` is released exactly when it is not yet released,
    not requested, and its readers are all finished once `key` is.
   */
  lemma FreedMeaning(g: Graph, prio: map<Key, int>, protected: set<Key>, s: State, key: Key)
    requires Structure(g, prio, s) && WaitingDataExact(g, s) && key in g
    ensures key in s.dependencies
    ensures forall d :: d in Freed(s, key, protected) <==>
      && d in DepsOf(g[key]) && d !in s.released && d !in protected
      && Readers(g, d) <= s.finished + {key}
  {
    forall d | d in DepsOf(g[key])
      ensures d in Freed(s, key, protected) <==>
        d !in s.released && d !in protected && Readers(g, d) <= s.finished + {key}
    {
      assert key in Readers(g, d);
    }
  }

  /** A running key has not been released. */
  lemma RunningNotReleased(g: Graph, protected: set<Key>, s: State, key: Key)
    requires Lifecycle(g, s) && ReleasedExact(g, protected, s) && key in s.running
    requires forall d :: d in Readers(g, key) ==> d in s.waiting
    ensures key !in s.released
  {
  }

  /** The new `waiting`: the dependents still waiting, without `key`. */
  lemma FinishWaiting(g: Graph, s: State, key: Key)
    requires Lifecycle(g, s) && WaitingExact(g, s)
    requires key in s.dependents && s.dependents[key] == Readers(g, key)
    ensures var w := WaitingAfter(s, key, s.dependents[key]);
      && w.Keys == s.waiting.Keys - NewlyReady(s, key)
      && forall d :: d in w ==> w[d] == s.waiting[d] - {key}
  {
    var w := WaitingAfter(s, key, s.dependents[key]);
    forall d | d in w
      ensures w[d] == s.waiting[d] - {key}
    {
      if d !in s.dependents[key] {
        assert d in Tasks(g);
        assert key !in DepsOf(g[d]);
      }
    }
  }

  /** The new `waiting_data`: the entries not released, each without `key`. */
  lemma FinishWaitingDataShape(g: Graph, protected: set<Key>, s: State, key: Key)
    requires WaitingDataExact(g, s) && key in g
    requires key in s.dependencies && s.dependencies[key] == DepsOf(g[key])
    ensures var wd := WaitingDataAfter(s, key, protected, s.dependencies[key]);
      && wd.Keys == s.waitingData.Keys - Freed(s, key, protected)
      && forall d :: d in wd ==> wd[d] == s.waitingData[d] - {key}
  {
    var wd := WaitingDataAfter(s, key, protected, s.dependencies[key]);
    forall d | d in wd
      ensures wd[d] == s.waitingData[d] - {key}
    {
      if d !in s.dependencies[key] {
        assert key !in Readers(g, d);
      }
    }
  }

  lemma LifecycleStep(g: Graph, s: State, t: State, key: Key, newly: set<Key>)
    requires Lifecycle(g, s) && key in s.running && newly <= s.waiting.Keys
    requires t.waiting.Keys == s.waiting.Keys - newly && t.readySet == s.readySet + newly
    requires t.running == s.running - {key} && t.finished == s.finished + {key}
    ensures Lifecycle(g, t)
  {
  }

  lemma WaitingExactStep(g: Graph, s: State, t: State, key: Key, newly: set<Key>)
    requires Lifecycle(g, s) && WaitingExact(g, s) && key in g
    requires forall d :: d in newly <==> d in Readers(g, key) && DepsOf(g[d]) <= Done(g, s) + {key}
    requires t.waiting.Keys == s.waiting.Keys - newly
    requires forall d :: d in t.waiting ==> t.waiting[d] == s.waiting[d] - {key}
    requires t.finished == s.finished + {key}
    ensures WaitingExact(g, t)
  {
    assert Done(g, t) == Done(g, s) + {key};
    forall d | d in g && !g[d].Literal?
      ensures if d in t.waiting then t.waiting[d] == DepsOf(g[d]) - Done(g, t) && t.waiting[d] != {}
              else DepsOf(g[d]) <= Done(g, t)
    {
      if d in t.waiting && key in DepsOf(g[d]) {
        assert d in Readers(g, key);
      }
    }
  }

  lemma ReadyMirrorsStep(s: State, t: State, added: seq<Key>)
    requires ReadyMirrors(s) && Distinct(added) && Elems(added) !! s.readySet
    requires t.ready == s.ready + added && t.readySet == s.readySet + Elems(added)
    ensures ReadyMirrors(t)
  {
    ElemsAppend(s.ready, added);
    AppendDistinct(s.ready, added);
  }

  /** Two lists without repeats and with no element in common concatenate to one without repeats. */
  lemma AppendDistinct(a: seq<Key>, b: seq<Key>)
    requires Distinct(a) && Distinct(b) && Elems(a) !! Elems(b)
    ensures Distinct(a + b)
  {
    forall i, j | 0 <= i < j < |a + b|
      ensures (a + b)[i] != (a + b)[j]
    {
      if i < |a| && j >= |a| {
        assert a[i] in Elems(a) && b[j - |a|] in Elems(b);
      }
    }
  }

  lemma WaitingDataStep(g: Graph, s: State, t: State, key: Key, freed: set<Key>)
    requires WaitingDataExact(g, s)
    requires t.waitingData.Keys == s.waitingData.Keys - freed
    requires forall d :: d in t.waitingData ==> t.waitingData[d] == s.waitingData[d] - {key}
    requires t.finished == s.finished + {key} && t.released == s.released + freed
    ensures WaitingDataExact(g, t)
  {
  }

  lemma ReleasedStep(g: Graph, protected: set<Key>, s: State, t: State, key: Key, freed: set<Key>)
    requires ReleasedExact(g, protected, s) && RefsClosed(g) && key in g
    requires forall d :: d in freed <==>
      && d in DepsOf(g[key]) && d !in s.released && d !in protected
      && Readers(g, d) <= s.finished + {key}
    requires t.finished == s.finished + {key} && t.released == s.released + freed
    ensures ReleasedExact(g, protected, t)
  {
    forall d
      ensures d in t.released <==> d in g && Readers(g, d) != {} && Readers(g, d) <= t.finished && d !in protected
    {
      if d in g && Readers(g, d) <= t.finished && key in Readers(g, d) {
        assert d in DepsOf(g[key]);
      }
      if d in DepsOf(g[key]) {
        assert key in Readers(g, d);
      }
    }
  }

  lemma CacheStep(g: Graph, s: State, t: State, key: Key, freed: set<Key>)
    requires CacheExact(g, s) && key in s.running && key in s.cache
    requires key !in freed && key !in s.released
    requires t.cache == s.cache - freed && t.released == s.released + freed
    requires t.running == s.running - {key} && t.finished == s.finished + {key}
    ensures CacheExact(g, t)
  {
  }

  /** `finish_task` on a running key whose value is cached keeps the state consistent. */
  lemma FinishPreserves(g: Graph, prio: map<Key, int>, protected: set<Key>, s: State, key: Key)
    requires Consistent(g, prio, protected, s) && key in s.running && key in s.cache
    ensures CanFinish(s, key, prio)
    ensures Consistent(g, prio, protected, FinishTransition(s, key, protected, prio))
  {
    assert Structure(g, prio, s);
    RunningFacts(g, prio, s, key);
    NewlyReadyMeaning(g, prio, s, key);
    FreedMeaning(g, prio, protected, s, key);
    RunningNotReleased(g, protected, s, key);
    FinishWaiting(g, s, key);
    FinishWaitingDataShape(g, protected, s, key);
    var t := FinishTransition(s, key, protected, prio);
    var newly, freed := NewlyReady(s, key), Freed(s, key, protected);
    var added := SortByPriority(newly, prio);
    IncreasingDistinct(added, prio);
    LifecycleStep(g, s, t, key, newly);
    WaitingExactStep(g, s, t, key, newly);
    ReadyMirrorsStep(s, t, added);
    WaitingDataStep(g, s, t, key, freed);
    ReleasedStep(g, protected, s, t, key, freed);
    CacheStep(g, s, t, key, freed);
    assert Structure(g, prio, t);
  }

  /**
    The state `finish_task` leaves, in terms of the graph: `key` has moved
    from running to finished; the dependents that are now ready are exactly
    the readers of `key` whose every dependency is done; the released keys
    are exactly the unrequested dependencies of `key` whose every reader is
    finished; the value of `key` and its own `waiting_data` entry are kept;
    `dependencies` and `dependents` are untouched.
   */
  lemma FinishEffects(g: Graph, prio: map<Key, int>, protected: set<Key>, s: State, key: Key)
    requires Consistent(g, prio, protected, s) && key in s.running && key in s.cache
    ensures CanFinish(s, key, prio)
    ensures var t := FinishTransition(s, key, protected, prio);
      && t.running == s.running - {key} && key !in t.running
      && t.finished == s.finished + {key}
      && t.dependencies == s.dependencies && t.dependents == s.dependents
      && (forall d :: d in t.readySet && d !in s.readySet <==>
            d in Readers(g, key) && DepsOf(g[d]) <= Done(g, s) + {key})
      && (forall d :: d in t.released && d !in s.released <==>
            d in DepsOf(g[key]) && d !in protected && Readers(g, d) <= t.finished)
      && key in t.cache && t.cache[key] == s.cache[key]
      && (key in s.waitingData ==> key in t.waitingData && t.waitingData[key] == s.waitingData[key])
  {
    assert Structure(g, prio, s);
    RunningFacts(g, prio, s, key);
    NewlyReadyMeaning(g, prio, s, key);
    FreedMeaning(g, prio, protected, s, key);
    var t := FinishTransition(s, key, protected, prio);
    forall d | d in Readers(g, key) && DepsOf(g[d]) <= Done(g, s) + {key}
      ensures d !in s.readySet
    {
      assert d in s.waiting;
    }
    forall d | d in DepsOf(g[key]) && d !in protected && Readers(g, d) <= t.finished
      ensures d !in s.released
    {
      assert key in Readers(g, d) && key !in s.finished;
    }
  }

  /** Popping a ready key keeps the state consistent. */
  lemma PopPreserves(g: Graph, prio: map<Key, int>, protected: set<Key>, s: State)
    requires Consistent(g, prio, protected, s) && s.ready != []
    ensures Consistent(g, prio, protected, PopTransition(s))
  {
    var t := PopTransition(s);
    var key := s.ready[|s.ready| - 1];
    DistinctInit(s.ready);
    assert key in s.readySet;
    PopLifecycle(g, s, t, key);
    PopCache(g, s, t);
    assert Structure(g, prio, t) && WaitingExact(g, t) && ReadyMirrors(t);
    assert WaitingDataExact(g, t) && ReleasedExact(g, protected, t);
  }

  lemma PopLifecycle(g: Graph, s: State, t: State, key: Key)
    requires Lifecycle(g, s) && key in s.readySet
    requires t.waiting == s.waiting && t.readySet == s.readySet - {key}
    requires t.running == s.running + {key} && t.finished == s.finished
    ensures Lifecycle(g, t)
  {
  }

  lemma PopCache(g: Graph, s: State, t: State)
    requires CacheExact(g, s) && s.running <= t.running
    requires t.cache == s.cache && t.finished == s.finished && t.released == s.released
    ensures CacheExact(g, t)
  {
  }

  /** Storing the result of a running key keeps the state consistent. */
  lemma StorePreserves(g: Graph, prio: map<Key, int>, protected: set<Key>, s: State, key: Key, v: Value)
    requires Consistent(g, prio, protected, s) && key in s.running
    ensures Consistent(g, prio, protected, s.(cache := s.cache[key := v]))
  {
    var t := s.(cache := s.cache[key := v]);
    assert key in Tasks(g);
    StoreCache(g, s, t, key, v);
    assert Structure(g, prio, t) && Lifecycle(g, t) && WaitingExact(g, t) && ReadyMirrors(t);
    assert WaitingDataExact(g, t) && ReleasedExact(g, protected, t);
  }

  lemma StoreCache(g: Graph, s: State, t: State, key: Key, v: Value)
    requires CacheExact(g, s) && key in s.running && key in g
    requires t.cache == s.cache[key := v] && t.running == s.running
    requires t.finished == s.finished && t.released == s.released
    ensures CacheExact(g, t)
  {
  }

  /** The dependencies of a ready or running key are all cached. */
  lemma DepsCached(g: Graph, prio: map<Key, int>, protected: set<Key>, s: State, key: Key)
    requires Consistent(g, prio, protected, s) && (key in s.readySet || key in s.running)
    ensures key in g && DepsOf(g[key]) <= s.cache.Keys
  {
    assert key in Tasks(g) && key !in s.waiting;
    forall d | d in DepsOf(g[key])
      ensures d in s.cache
    {
      assert d in g && d in Done(g, s);
      assert key in Readers(g, d) && key !in s.finished;
      assert d !in s.released;
      assert d !in s.running;
    }
  }
}
