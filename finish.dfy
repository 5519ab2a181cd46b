/**
  `finish_task`: the transition applied when a running task has produced its
  value (already stored in `cache`).  The key moves from `running` to
  `finished`; every dependent stops waiting for it, and a dependent with
  nothing left to wait for is appended to `ready`; every dependency stops
  being read by it, and a dependency with no readers left that is not a
  requested output is dropped from `cache` and marked `released`.

  `FinishTransition` states the new state as a function of the old one;
  `Scheduler.FinishTask` performs it in place, field by field, as the
  scheduler does.
 */
module Executor {
  import opened Keys
  import opened Results
  import opened Graphs
  import opened Priority
  import opened SchedulingState

  /** The dependents of `key` whose only remaining wait is `key`. */
  function NewlyReady(s: State, key: Key): set<Key>
    requires key in s.dependents
  {
    set d | d in s.dependents[key] && d in s.waiting && s.waiting[d] - {key} == {}
  }

  /** The dependencies of `key` left without readers, other than the requested outputs. */
  function Freed(s: State, key: Key, results: set<Key>): set<Key>
    requires key in s.dependencies
  {
    set d | d in s.dependencies[key] && d in s.waitingData && s.waitingData[d] - {key} == {} && d !in results
  }

  /**
    What `finish_task` needs of the state: the key is running, it has entries
    in `dependencies` and `dependents`, and each of its dependents still waits.
   */
  predicate CanFinish(s: State, key: Key, prio: map<Key, int>)
  {
    && key in s.running
    && key in s.dependencies
    && key in s.dependents
    && (forall d :: d in s.dependents[key] ==> d in s.waiting)
    && PriorityOK(prio, s.dependents[key])
  }

  /**
    `waiting` once the dependents `done` of `key` have been visited: each
    has stopped waiting for `key`, and one left waiting for nothing has lost
    its entry.
   */
  function WaitingAfter(s: State, key: Key, done: set<Key>): map<Key, set<Key>>
    requires key in s.dependents
  {
    var newly := NewlyReady(s, key);
    map d | d in s.waiting && !(d in done && d in newly) ::
      if d in done then s.waiting[d] - {key} else s.waiting[d]
  }

  /**
    `waiting_data` once the dependencies `done` of `key` have been visited:
    each has lost `key` from its readers, and one left with none that is
    not in `results` has lost its entry.
   */
  function WaitingDataAfter(s: State, key: Key, results: set<Key>, done: set<Key>): map<Key, set<Key>>
    requires key in s.dependencies
  {
    var freed := Freed(s, key, results);
    map d | d in s.waitingData && !(d in done && d in freed) ::
      if d in done then s.waitingData[d] - {key} else s.waitingData[d]
  }

  /**
    The state after `finish_task(dsk, key, state, results, sortkey)`.  The
    dependents are visited in increasing priority, so the newly ready ones
    are appended after the keys already ready, in that order.
   */
  function FinishTransition(s: State, key: Key, results: set<Key>, prio: map<Key, int>): (r: State)
    requires CanFinish(s, key, prio)
    ensures |s.ready| <= |r.ready| && r.ready[..|s.ready|] == s.ready
    ensures Increasing(r.ready[|s.ready|..], prio) && Elems(r.ready[|s.ready|..]) == NewlyReady(s, key)
    ensures key !in r.running && key in r.finished
    ensures forall k :: k in s.running && k != key ==> k in r.running
    ensures r.dependencies == s.dependencies && r.dependents == s.dependents
    ensures forall k :: k in r.cache ==> k in s.cache && r.cache[k] == s.cache[k]
  {
    var newly := NewlyReady(s, key);
    var freed := Freed(s, key, results);
    var added := SortByPriority(newly, prio);
    assert (s.ready + added)[..|s.ready|] == s.ready;
    assert (s.ready + added)[|s.ready|..] == added;
    s.(cache := s.cache - freed,
       waiting := WaitingAfter(s, key, s.dependents[key]),
       waitingData := WaitingDataAfter(s, key, results, s.dependencies[key]),
       ready := s.ready + SortByPriority(newly, prio),
       readySet := s.readySet + newly,
       running := s.running - {key},
       finished := s.finished + {key},
       released := s.released + freed)
  }

  /** `state['ready'].pop()`: the last ready key starts running. */
  function PopTransition(s: State): (r: State)
    requires s.ready != []
    ensures r.ready + [s.ready[|s.ready| - 1]] == s.ready
    ensures s.ready[|s.ready| - 1] in r.running && r.cache == s.cache
  {
    var key := s.ready[|s.ready| - 1];
    s.(ready := s.ready[..|s.ready| - 1],
       readySet := s.readySet - {key},
       running := s.running + {key})
  }

  /*
    The two loops of `finish_task`, one visit at a time.  A visit of a
    dependent `d` removes `key` from `waiting[d]` and, when that empties it,
    moves `d` from `waiting` to the end of `ready`; a visit of a dependency
    removes `key` from its readers and, when none are left and it is not
    requested, releases it.
   */

  type Promotion = (map<Key, set<Key>>, seq<Key>, set<Key>)
  type Release = (map<Key, set<Key>>, map<Key, Value>, set<Key>)

  /** The parts of a state the loop over the dependents changes. */
  function PromotionOf(s: State): Promotion
  {
    (s.waiting, s.ready, s.readySet)
  }

  /** The parts of a state the loop over the dependencies changes. */
  function ReleaseOf(s: State): Release
  {
    (s.waitingData, s.cache, s.released)
  }

  function VisitDependent(p: Promotion, key: Key, d: Key): Promotion
  {
    var (waiting, ready, readySet) := p;
    if d !in waiting then p
    else if waiting[d] - {key} == {} then (waiting - {d}, ready + [d], readySet + {d})
    else (waiting[d := waiting[d] - {key}], ready, readySet)
  }

  /** `waiting`, `ready` and `ready-set` after visiting the dependents `order` in turn. */
  function VisitDependents(start: Promotion, key: Key, order: seq<Key>): Promotion
  {
    if order == [] then start
    else VisitDependent(VisitDependents(start, key, order[..|order| - 1]), key, order[|order| - 1])
  }

  function VisitDependency(r: Release, key: Key, results: set<Key>, dep: Key): Release
  {
    var (waitingData, cache, released) := r;
    if dep !in waitingData then r
    else if waitingData[dep] - {key} == {} && dep !in results then
      (waitingData - {dep}, cache - {dep}, released + {dep})
    else (waitingData[dep := waitingData[dep] - {key}], cache, released)
  }

  /** `waiting_data`, `cache` and `released` after visiting the dependencies `visited` in turn. */
  function VisitDependencies(start: Release, key: Key, results: set<Key>, visited: seq<Key>): Release
  {
    if visited == [] then start
    else VisitDependency(VisitDependencies(start, key, results, visited[..|visited| - 1]), key, results, visited[|visited| - 1])
  }

  lemma WaitingStep(s: State, key: Key, done: set<Key>, d: Key)
    requires key in s.dependents && d in s.dependents[key] && d in s.waiting && d !in done
    ensures var w := WaitingAfter(s, key, done);
      && d in w && w[d] == s.waiting[d]
      && WaitingAfter(s, key, done + {d})
         == if w[d] - {key} == {} then w - {d} else w[d := w[d] - {key}]
  {
  }

  lemma ReleaseStep(s: State, key: Key, results: set<Key>, done: set<Key>, dep: Key)
    requires key in s.dependencies && dep in s.dependencies[key] && dep !in done
    ensures var wd, freed := WaitingDataAfter(s, key, results, done), Freed(s, key, results);
      var wd' := WaitingDataAfter(s, key, results, done + {dep});
      && (dep in freed <==> dep in wd && wd[dep] - {key} == {} && dep !in results)
      && (dep in freed ==> wd' == wd - {dep})
      && (dep !in freed && dep in wd ==> wd' == wd[dep := wd[dep] - {key}])
      && (dep !in wd ==> wd' == wd)
  {
  }

  lemma DistinctSnoc(s: seq<Key>, x: Key)
    requires Distinct(s) && x !in Elems(s)
    ensures Distinct(s + [x])
  {
    assert forall i :: 0 <= i < |s| ==> s[i] in Elems(s);
  }

  lemma DistinctInit(s: seq<Key>)
    requires Distinct(s) && s != []
    ensures Distinct(s[..|s| - 1])
    ensures Elems(s) == Elems(s[..|s| - 1]) + {s[|s| - 1]}
    ensures s[|s| - 1] !in Elems(s[..|s| - 1])
  {
    assert s == s[..|s| - 1] + [s[|s| - 1]];
    ElemsAppend(s[..|s| - 1], [s[|s| - 1]]);
  }

  /**
    Visiting distinct dependents of `key` one by one, as the loop does, has
    the effect the declarative `waiting`, `ready` and `ready-set` describe
    for the set of those visited.
   */
  lemma {:induction false} VisitDependentsMeaning(s: State, key: Key, order: seq<Key>)
    requires key in s.dependents && Distinct(order) && Elems(order) <= s.dependents[key]
    requires forall d :: d in s.dependents[key] ==> d in s.waiting
    ensures var newly := NewlyReady(s, key);
      VisitDependents(PromotionOf(s), key, order)
      == (WaitingAfter(s, key, Elems(order)), s.ready + Filter(order, newly), s.readySet + Elems(order) * newly)
    decreases |order|
  {
    var newly := NewlyReady(s, key);
    if order == [] {
      assert WaitingAfter(s, key, Elems(order)) == s.waiting by {
        assert Elems(order) == {};
      }
      assert Filter(order, newly) == [] && s.ready + [] == s.ready;
      assert Elems(order) * newly == {};
      assert s.readySet + {} == s.readySet;
    } else {
      var init, d := order[..|order| - 1], order[|order| - 1];
      DistinctInit(order);
      VisitDependentsMeaning(s, key, init);
      WaitingStep(s, key, Elems(init), d);
      var p := VisitDependents(PromotionOf(s), key, init);
      assert VisitDependents(PromotionOf(s), key, order) == VisitDependent(p, key, d);
      assert Filter(order, newly) == Filter(init, newly) + (if d in newly then [d] else []);
      if d in newly {
        assert s.waiting[d] - {key} == {};
        assert Elems(order) * newly == Elems(init) * newly + {d};
        assert s.ready + Filter(init, newly) + [d] == s.ready + Filter(order, newly);
        assert s.readySet + Elems(init) * newly + {d} == s.readySet + Elems(order) * newly;
      } else {
        assert s.waiting[d] - {key} != {};
        assert Elems(order) * newly == Elems(init) * newly;
        assert Filter(order, newly) == Filter(init, newly) + [] == Filter(init, newly);
      }
    }
  }

  /** Visiting distinct dependencies of `key` one by one has the effect the declarative state describes. */
  lemma {:induction false} VisitDependenciesMeaning(s: State, key: Key, results: set<Key>, visited: seq<Key>)
    requires key in s.dependencies && Distinct(visited) && Elems(visited) <= s.dependencies[key]
    ensures var freed := Freed(s, key, results) * Elems(visited);
      VisitDependencies(ReleaseOf(s), key, results, visited)
      == (WaitingDataAfter(s, key, results, Elems(visited)), s.cache - freed, s.released + freed)
    decreases |visited|
  {
    var freed := Freed(s, key, results);
    if visited == [] {
      assert Elems(visited) == {} && freed * {} == {};
      assert WaitingDataAfter(s, key, results, {}) == s.waitingData;
      assert s.cache - {} == s.cache;
      assert s.released + {} == s.released;
    } else {
      var init, dep := visited[..|visited| - 1], visited[|visited| - 1];
      DistinctInit(visited);
      VisitDependenciesMeaning(s, key, results, init);
      ReleaseStep(s, key, results, Elems(init), dep);
      var r := VisitDependencies(ReleaseOf(s), key, results, init);
      assert VisitDependencies(ReleaseOf(s), key, results, visited) == VisitDependency(r, key, results, dep);
      if dep in freed {
        assert freed * Elems(visited) == freed * Elems(init) + {dep};
        assert s.cache - freed * Elems(init) - {dep} == s.cache - (freed * Elems(init) + {dep});
        assert s.released + freed * Elems(init) + {dep} == s.released + freed * Elems(visited);
      } else {
        assert freed * Elems(visited) == freed * Elems(init);
      }
    }
  }

  /** The dependent visited next still waits. */
  lemma VisitDependentsEnabled(s: State, key: Key, order: seq<Key>, i: nat)
    requires key in s.dependents && Distinct(order) && Elems(order) <= s.dependents[key]
    requires forall d :: d in s.dependents[key] ==> d in s.waiting
    requires i < |order|
    ensures order[i] in VisitDependents(PromotionOf(s), key, order[..i]).0
  {
    assert order[..i + 1] == order[..i] + [order[i]];
    ElemsAppend(order[..i], [order[i]]);
    DistinctInit(order[..i + 1]);
    assert order[..i + 1][..i] == order[..i];
    VisitDependentsMeaning(s, key, order[..i]);
    WaitingStep(s, key, Elems(order[..i]), order[i]);
  }

  /** Visiting every dependent in increasing priority gives the new `waiting`, `ready` and `ready-set`. */
  lemma DependentsVisited(s: State, key: Key, results: set<Key>, prio: map<Key, int>)
    requires CanFinish(s, key, prio)
    ensures var t := FinishTransition(s, key, results, prio);
      VisitDependents(PromotionOf(s), key, SortByPriority(s.dependents[key], prio)) == (t.waiting, t.ready, t.readySet)
  {
    hide VisitDependents;
    var order, newly := SortByPriority(s.dependents[key], prio), NewlyReady(s, key);
    IncreasingDistinct(order, prio);
    VisitDependentsMeaning(s, key, order);
    FilterSorted(s.dependents[key], newly, prio);
    assert s.dependents[key] * newly == newly;
  }

  /** Visiting every dependency, in any order, gives the new `waiting_data`, `cache` and `released`. */
  lemma DependenciesVisited(s: State, key: Key, results: set<Key>, prio: map<Key, int>, visited: seq<Key>)
    requires CanFinish(s, key, prio) && Distinct(visited) && Elems(visited) == s.dependencies[key]
    ensures var t := FinishTransition(s, key, results, prio);
      VisitDependencies(ReleaseOf(s), key, results, visited) == (t.waitingData, t.cache, t.released)
  {
    VisitDependenciesMeaning(s, key, results, visited);
    assert Freed(s, key, results) * Elems(visited) == Freed(s, key, results);
  }

  /** Moving `x` from `todo` to `done` keeps their union and their disjointness. */
  lemma MoveOne(todo: set<Key>, done: seq<Key>, x: Key)
    requires x in todo && todo !! Elems(done) && Distinct(done)
    ensures (todo - {x}) + Elems(done + [x]) == todo + Elems(done)
    ensures (todo - {x}) !! Elems(done + [x])
    ensures Distinct(done + [x])
  {
    ElemsAppend(done, [x]);
    DistinctSnoc(done, x);
  }

  lemma VisitDependentsStep(start: Promotion, key: Key, order: seq<Key>, i: nat)
    requires i < |order|
    ensures VisitDependents(start, key, order[..i + 1])
         == VisitDependent(VisitDependents(start, key, order[..i]), key, order[i])
  {
    assert order[..i + 1][..i] == order[..i];
  }

  /** The loop of `finish_task` over the dependents of `key`, most urgent last. */
  method PromoteLoop(s: State, key: Key, prio: map<Key, int>)
      returns (w: map<Key, set<Key>>, r: seq<Key>, rs: set<Key>)
    requires CanFinish(s, key, prio)
    ensures (w, r, rs) == VisitDependents(PromotionOf(s), key, SortByPriority(s.dependents[key], prio))
  {
    var order := SortByPriority(s.dependents[key], prio);
    IncreasingDistinct(order, prio);
    w, r, rs := s.waiting, s.ready, s.readySet;
    var i := 0;
    while i < |order|
      invariant i <= |order|
      invariant (w, r, rs) == VisitDependents(PromotionOf(s), key, order[..i])
    {
      var d := order[i];
      VisitDependentsEnabled(s, key, order, i);
      VisitDependentsStep(PromotionOf(s), key, order, i);
      var rest := w[d] - {key};
      if rest == {} {
        w := w - {d};
        r := r + [d];
        rs := rs + {d};
      } else {
        w := w[d := rest];
      }
      i := i + 1;
    }
    assert order[..i] == order;
  }

  /** The loop of `finish_task` over the dependencies of `key`, in the order `visited`. */
  method ReleaseLoop(s: State, key: Key, results: set<Key>)
      returns (wd: map<Key, set<Key>>, c: map<Key, Value>, rel: set<Key>, visited: seq<Key>)
    requires key in s.dependencies
    ensures Distinct(visited) && Elems(visited) == s.dependencies[key]
    ensures (wd, c, rel) == VisitDependencies(ReleaseOf(s), key, results, visited)
  {
    var todo := s.dependencies[key];
    wd, c, rel := s.waitingData, s.cache, s.released;
    visited := [];
    while todo != {}
      invariant Distinct(visited) && todo !! Elems(visited) && todo + Elems(visited) == s.dependencies[key]
      invariant (wd, c, rel) == VisitDependencies(ReleaseOf(s), key, results, visited)
      decreases |todo|
    {
      var dep :| dep in todo;
      MoveOne(todo, visited, dep);
      assert (visited + [dep])[..|visited|] == visited;
      if dep in wd {
        var rest := wd[dep] - {key};
        if rest == {} && dep !in results {
          wd := wd - {dep};
          c := c - {dep};
          rel := rel + {dep};
        } else {
          wd := wd[dep := rest];
        }
      }
      todo := todo - {dep};
      visited := visited + [dep];
    }
  }

  /** The scheduling state, updated in place. */
  class Scheduler {
    var cache: map<Key, Value>
    var dependencies: map<Key, set<Key>>
    var dependents: map<Key, set<Key>>
    var waiting: map<Key, set<Key>>
    var waitingData: map<Key, set<Key>>
    var ready: seq<Key>
    var readySet: set<Key>
    var running: set<Key>
    var finished: set<Key>
    var released: set<Key>

    function Snapshot(): State
      reads this
    {
      State(cache, dependencies, dependents, waiting, waitingData,
            ready, readySet, running, finished, released)
    }

    constructor FromState(s: State)
      ensures Snapshot() == s
    {
      cache := s.cache;
      dependencies := s.dependencies;
      dependents := s.dependents;
      waiting := s.waiting;
      waitingData := s.waitingData;
      ready := s.ready;
      readySet := s.readySet;
      running := s.running;
      finished := s.finished;
      released := s.released;
    }

    /** `state['cache'][key] = result`. */
    method StoreResult(key: Key, v: Value)
      modifies this
      ensures Snapshot() == old(Snapshot()).(cache := old(cache)[key := v])
    {
      cache := cache[key := v];
    }

    /** Pops the last ready key and marks it running. */
    method PopReady() returns (key: Key)
      requires ready != []
      modifies this
      ensures key == old(ready[|ready| - 1])
      ensures Snapshot() == PopTransition(old(Snapshot()))
    {
      key := ready[|ready| - 1];
      ready := ready[..|ready| - 1];
      readySet := readySet - {key};
      running := running + {key};
    }

    /** `finish_task(dsk, key, state, results, sortkey)`. */
    method FinishTask(key: Key, results: set<Key>, prio: map<Key, int>)
      requires CanFinish(Snapshot(), key, prio)
      modifies this
      ensures Snapshot() == FinishTransition(old(Snapshot()), key, results, prio)
    {
      ghost var s0 := Snapshot();
      ghost var t := FinishTransition(s0, key, results, prio);
      PromoteDependents(key, prio);
      DependentsVisited(s0, key, results, prio);
      assert waiting == t.waiting && ready == t.ready && readySet == t.readySet;
      assert ReleaseOf(Snapshot()) == ReleaseOf(s0);
      ghost var visited := ReleaseDependencies(key, results);
      DependenciesVisited(s0, key, results, prio, visited);
      assert waitingData == t.waitingData && cache == t.cache && released == t.released;
      running := running - {key};
      finished := finished + {key};
    }

    /** The loop over the dependents of `key`, in increasing priority. */
    method PromoteDependents(key: Key, prio: map<Key, int>)
      requires CanFinish(Snapshot(), key, prio)
      modifies this
      ensures (waiting, ready, readySet)
        == VisitDependents(PromotionOf(old(Snapshot())), key, SortByPriority(old(dependents[key]), prio))
      ensures cache == old(cache) && dependencies == old(dependencies) && dependents == old(dependents)
      ensures waitingData == old(waitingData) && running == old(running)
      ensures finished == old(finished) && released == old(released)
    {
      hide VisitDependents;
      hide SortByPriority;
      hide CanFinish;
      var w, r, rs := PromoteLoop(Snapshot(), key, prio);
      waiting, ready, readySet := w, r, rs;
    }

    /** The loop over the dependencies of `key`, in the order `visited`. */
    method ReleaseDependencies(key: Key, results: set<Key>) returns (visited: seq<Key>)
      requires key in dependencies
      modifies this
      ensures Distinct(visited) && Elems(visited) == old(dependencies[key])
      ensures (waitingData, cache, released) == VisitDependencies(ReleaseOf(old(Snapshot())), key, results, visited)
      ensures dependencies == old(dependencies) && dependents == old(dependents) && waiting == old(waiting)
      ensures ready == old(ready) && readySet == old(readySet) && running == old(running)
      ensures finished == old(finished)
    {
      var wd, c, rel;
      wd, c, rel, visited := ReleaseLoop(Snapshot(), key, results);
      waitingData, cache, released := wd, c, rel;
    }
  }
}
