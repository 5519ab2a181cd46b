/**
  Worked examples: the graphs of the scheduler's unit tests, with the task
  functions `inc`, `add` and `sum` on integers, and what the model computes
  for them.
 */
module Scenarios {
  import opened Keys
  import opened Results
  import opened Graphs
  import opened Priority
  import opened SchedulingState
  import opened Executor
  import opened Driver

  /** `inc`, `add` and `sum` on integers; anything else raises. */
  function Builtins(f: FuncId, args: seq<Value>): (r: Result<Value, string>)
    ensures f == "inc" && |args| == 1 && args[0].VInt? ==> r == Ok(VInt(args[0].i + 1))
    ensures f == "add" && |args| == 2 && args[0].VInt? && args[1].VInt? ==> r == Ok(VInt(args[0].i + args[1].i))
  {
    if f == "inc" && |args| == 1 && args[0].VInt? then Ok(VInt(args[0].i + 1))
    else if f == "add" && |args| == 2 && args[0].VInt? && args[1].VInt? then Ok(VInt(args[0].i + args[1].i))
    else if f == "sum" && |args| == 1 && args[0].VList? then
      match SumInts(args[0].items)
      case Some(n) => Ok(VInt(n))
      case None => Err("TypeError")
    else Err("TypeError")
  }

  datatype Option<T> = None | Some(value: T)

  /** The sum of a list of integers; `None` when an element is not an integer. */
  function SumInts(vs: seq<Value>): (r: Option<int>)
    ensures r.Some? <==> forall i :: 0 <= i < |vs| ==> vs[i].VInt?
  {
    if vs == [] then Some(0)
    else if !vs[0].VInt? then None
    else
      match SumInts(vs[1..])
      case None => None
      case Some(n) => Some(vs[0].i + n)
  }

  const X := Name("x")
  const Y := Name("y")
  const Z := Name("z")
  const W := Name("w")
  const A := Name("a")
  const B := Name("b")
  const C := Name("c")
  const Other := Name("other-task")

  /** `{'x': 1, 'y': 2, 'z': (inc, 'x'), 'w': (add, 'z', 'y')}` */
  function Diamond(): Graph
  {
    map[X := Literal(VInt(1)), Y := Literal(VInt(2)),
        Z := Call("inc", [Ref(X)]), W := Call("add", [Ref(Z), Ref(Y)])]
  }

  function DiamondPrio(): map<Key, int>
  {
    map[X := 0, Y := 1, Z := 2, W := 3]
  }

  /** `test_start_state`: the whole start state of the diamond graph. */
  lemma StartStateExample()
    ensures StartStateFromDask(Diamond(), DiamondPrio()) == Ok(State(
      map[X := VInt(1), Y := VInt(2)],
      map[W := {Y, Z}, X := {}, Y := {}, Z := {X}],
      map[W := {}, X := {Z}, Y := {W}, Z := {W}],
      map[W := {Z}],
      map[X := {Z}, Y := {W}, Z := {W}],
      [Z], {Z}, {}, {}, {}))
  {
    DiamondClosed();
    DiamondLiterals();
    DiamondRelations();
    DiamondReady();
    DiamondWaiting();
    DiamondWaitingData();
    SortOne(Z, DiamondPrio());
  }

  lemma SortOne(k: Key, prio: map<Key, int>)
    requires k in prio
    ensures SortByPriority({k}, prio) == [k]
  {
    assert Elems([k]) == {k};
    IsSortByPriority([k], {k}, prio);
  }

  lemma DiamondClosed()
    ensures RefsClosed(Diamond()) && PriorityOK(DiamondPrio(), Diamond().Keys)
  {
    DiamondDeps();
  }

  lemma RefsOne(a: Key)
    ensures ArgsRefs([Ref(a)]) == {a}
  {
    assert ArgsRefs([Ref(a)]) == ArgRefs(Ref(a)) + ArgsRefs([]);
  }

  lemma RefsTwo(a: Key, b: Key)
    ensures ArgsRefs([Ref(a), Ref(b)]) == {a, b}
  {
    assert [Ref(a), Ref(b)][1..] == [Ref(b)];
    RefsOne(b);
  }

  lemma DiamondDeps()
    ensures Diamond().Keys == {X, Y, Z, W}
    ensures DepsOf(Diamond()[X]) == {} && DepsOf(Diamond()[Y]) == {}
    ensures DepsOf(Diamond()[Z]) == {X} && DepsOf(Diamond()[W]) == {Z, Y}
  {
    RefsOne(X);
    RefsTwo(Z, Y);
  }

  lemma ReadersAre(g: Graph, k: Key, expected: set<Key>)
    requires expected <= g.Keys
    requires forall j :: j in g ==> (k in DepsOf(g[j]) <==> j in expected)
    ensures Readers(g, k) == expected
  {
  }

  lemma DiamondReaders()
    ensures Readers(Diamond(), X) == {Z} && Readers(Diamond(), Y) == {W}
    ensures Readers(Diamond(), Z) == {W} && Readers(Diamond(), W) == {}
  {
    DiamondDeps();
    ReadersAre(Diamond(), X, {Z});
    ReadersAre(Diamond(), Y, {W});
    ReadersAre(Diamond(), Z, {W});
    ReadersAre(Diamond(), W, {});
  }

  lemma DiamondLiterals()
    ensures Literals(Diamond()) == {X, Y}
    ensures LiteralValues(Diamond()) == map[X := VInt(1), Y := VInt(2)]
  {
    DiamondDeps();
    var g := Diamond();
    assert Literals(g) == {X, Y};
  }

  lemma DiamondRelations()
    ensures Dependencies(Diamond()) == map[W := {Y, Z}, X := {}, Y := {}, Z := {X}]
    ensures Dependents(Diamond()) == map[W := {}, X := {Z}, Y := {W}, Z := {W}]
  {
    DiamondDeps();
    DiamondReaders();
    var g := Diamond();
    assert {Z, Y} == {Y, Z};
    assert Dependencies(g).Keys == {W, X, Y, Z};
    assert Dependents(g).Keys == {W, X, Y, Z};
  }

  lemma DiamondReady()
    ensures InitiallyReady(Diamond()) == {Z}
  {
    DiamondDeps();
    DiamondLiterals();
    assert !({Z, Y} <= {X, Y}) by {
      assert Z !in {X, Y};
    }
    var ready := InitiallyReady(Diamond());
    assert forall k :: k in ready <==> k == Z;
  }

  lemma DiamondWaiting()
    ensures InitialWaiting(Diamond()) == map[W := {Z}]
  {
    DiamondDeps();
    DiamondLiterals();
    assert !({Z, Y} <= {X, Y}) by {
      assert Z !in {X, Y};
    }
    assert {Z, Y} - {X, Y} == {Z};
    var w := InitialWaiting(Diamond());
    assert w.Keys == {W};
  }

  lemma DiamondWaitingData()
    ensures InitialWaitingData(Diamond()) == map[X := {Z}, Y := {W}, Z := {W}]
  {
    DiamondDeps();
    DiamondReaders();
    var wd := InitialWaitingData(Diamond());
    assert wd.Keys == {X, Y, Z};
  }

  /**
    The state `test_finish_task` starts from: the start state of the diamond
    with `z` taken off the ready list and running beside a task of another
    graph, its result 2 stored.
   */
  function FinishBefore(): State
  {
    State(map[X := VInt(1), Y := VInt(2), Z := VInt(2)],
          map[W := {Y, Z}, X := {}, Y := {}, Z := {X}],
          map[W := {}, X := {Z}, Y := {W}, Z := {W}],
          map[W := {Z}],
          map[X := {Z}, Y := {W}, Z := {W}],
          [], {}, {Z, Other}, {}, {})
  }

  /**
    `FinishBefore` is the state the test prepares from the start state: `z`
    taken off the ready list and running beside another task, its result 2
    stored.
   */
  lemma FinishBeforeFromStart()
    ensures StartStateFromDask(Diamond(), DiamondPrio()).Ok?
    ensures var s := StartStateFromDask(Diamond(), DiamondPrio()).value;
      FinishBefore() == s.(ready := [], readySet := {}, running := {Z, Other}, cache := s.cache[Z := VInt(2)])
  {
    StartStateExample();
    hide StartStateFromDask;
  }

  /**
    `test_finish_task`: finishing `z` makes `w` ready and releases `x`,
    which nothing else reads; the other running task is left alone.
   */
  lemma FinishTaskExample()
    ensures CanFinish(FinishBefore(), Z, DiamondPrio())
    ensures var t := FinishTransition(FinishBefore(), Z, {}, DiamondPrio());
      && t.cache == map[Y := VInt(2), Z := VInt(2)]
      && t.dependencies == map[W := {Y, Z}, X := {}, Y := {}, Z := {X}]
      && t.dependents == map[W := {}, X := {Z}, Y := {W}, Z := {W}]
      && t.waiting == map[]
      && t.waitingData == map[Y := {W}, Z := {W}]
      && t.ready == [W] && t.readySet == {W}
      && t.running == {Other} && t.finished == {Z} && t.released == {X}
  {
    FinishParts();
    FinishRest();
    hide NewlyReady;
    hide Freed;
    hide WaitingAfter;
    hide WaitingDataAfter;
    hide FinishBefore;
    SortOne(W, DiamondPrio());
  }

  lemma FinishRest()
    ensures CanFinish(FinishBefore(), Z, DiamondPrio())
    ensures FinishBefore().cache - {X} == map[Y := VInt(2), Z := VInt(2)]
    ensures FinishBefore().running - {Z} == {Other}
    ensures FinishBefore().dependencies == map[W := {Y, Z}, X := {}, Y := {}, Z := {X}]
    ensures FinishBefore().dependents == map[W := {}, X := {Z}, Y := {W}, Z := {W}]
    ensures FinishBefore().ready + [W] == [W] && FinishBefore().readySet + {W} == {W}
    ensures FinishBefore().finished + {Z} == {Z} && FinishBefore().released + {X} == {X}
  {
    var s := FinishBefore();
    assert s.cache - {X} == map[Y := VInt(2), Z := VInt(2)];
    assert {Z, Other} - {Z} == {Other};
  }

  lemma FinishParts()
    ensures NewlyReady(FinishBefore(), Z) == {W}
    ensures Freed(FinishBefore(), Z, {}) == {X}
    ensures WaitingAfter(FinishBefore(), Z, {W}) == map[]
    ensures WaitingDataAfter(FinishBefore(), Z, {}, {X}) == map[Y := {W}, Z := {W}]
  {
    var s := FinishBefore();
    assert NewlyReady(s, Z) == {W} by {
      assert s.waiting[W] - {Z} == {};
    }
    assert Freed(s, Z, {}) == {X} by {
      assert s.waitingData[X] - {Z} == {};
    }
    assert WaitingDataAfter(s, Z, {}, {X}).Keys == {Y, Z};
  }

  /** `{'x': 1, 'y': 'x', 'z': (inc, 'y')}` */
  function Redirects(): Graph
  {
    map[X := Literal(VInt(1)), Y := Alias(X), Z := Call("inc", [Ref(Y)])]
  }

  /** `test_start_state_with_redirects`: an alias is not a literal, so only `x` starts cached. */
  lemma RedirectsExample(prio: map<Key, int>)
    requires PriorityOK(prio, Redirects().Keys)
    ensures StartStateFromDask(Redirects(), prio).Ok?
    ensures StartStateFromDask(Redirects(), prio).value.cache == map[X := VInt(1)]
  {
    RedirectsParts();
    hide Redirects;
    hide LiteralValues;
    hide Dependencies;
    hide Dependents;
    hide InitiallyReady;
    hide InitialWaiting;
    hide InitialWaitingData;
    hide SortByPriority;
  }

  lemma RedirectsParts()
    ensures RefsClosed(Redirects()) && LiteralValues(Redirects()) == map[X := VInt(1)]
  {
    var g := Redirects();
    RefsOne(Y);
    assert g.Keys == {X, Y, Z};
    assert Literals(g) == {X};
  }

  /** `{'x': (inc, 1)}` */
  function Independent(): Graph
  {
    map[X := Call("inc", [Lit(VInt(1))])]
  }

  /** `test_start_state_with_independent_but_runnable_tasks`: a task reading no key starts ready. */
  lemma IndependentExample(prio: map<Key, int>)
    requires PriorityOK(prio, Independent().Keys)
    ensures StartStateFromDask(Independent(), prio).Ok?
    ensures StartStateFromDask(Independent(), prio).value.ready == [X]
  {
    IndependentParts();
    assert X in Independent().Keys;
    SortOne(X, prio);
    hide Independent;
    hide LiteralValues;
    hide Dependencies;
    hide Dependents;
    hide InitiallyReady;
    hide InitialWaiting;
    hide InitialWaitingData;
    hide SortByPriority;
  }

  lemma IndependentParts()
    ensures RefsClosed(Independent()) && InitiallyReady(Independent()) == {X}
  {
    var g := Independent();
    assert ArgsRefs([Lit(VInt(1))]) == {} by {
      assert ArgsRefs([Lit(VInt(1))]) == ArgRefs(Lit(VInt(1))) + ArgsRefs([]);
    }
    assert g.Keys == {X};
  }

  /** Two keys in increasing priority. */
  lemma SortTwo(a: Key, b: Key, prio: map<Key, int>)
    requires a in prio && b in prio && prio[a] < prio[b]
    ensures SortByPriority({a, b}, prio) == [a, b]
  {
    assert Elems([a, b]) == {a, b};
    IsSortByPriority([a, b], {a, b}, prio);
  }

  /** `{'a': 1, 'b': (inc, 'a'), 'c': (inc, 'b'), 'x': 1, 'y': (inc, 'x')}` */
  function LongChainB(): Graph
  {
    map[A := Literal(VInt(1)), B := Call("inc", [Ref(A)]), C := Call("inc", [Ref(B)]),
        X := Literal(VInt(1)), Y := Call("inc", [Ref(X)])]
  }

  /** `{'x': 1, 'y': (inc, 'x'), 'z': (inc, 'y'), 'a': 1, 'b': (inc, 'a')}` */
  function LongChainY(): Graph
  {
    map[X := Literal(VInt(1)), Y := Call("inc", [Ref(X)]), Z := Call("inc", [Ref(Y)]),
        A := Literal(VInt(1)), B := Call("inc", [Ref(A)])]
  }

  /**
    `test_order_of_startstate`, first graph: the heads `b` and `y` of the
    two chains are the ready keys, and `b`, the head of the longer chain,
    which the priorities rank as more urgent, is listed last, to run first.
   */
  lemma OrderOfStartStateExample(prio: map<Key, int>)
    requires PriorityOK(prio, LongChainB().Keys) && Y in prio && B in prio && prio[Y] < prio[B]
    ensures StartStateFromDask(LongChainB(), prio).Ok?
    ensures StartStateFromDask(LongChainB(), prio).value.ready == [Y, B]
  {
    ChainBReady();
    SortTwo(Y, B, prio);
    hide LongChainB;
    hide LiteralValues;
    hide Dependencies;
    hide Dependents;
    hide InitiallyReady;
    hide InitialWaiting;
    hide InitialWaitingData;
    hide SortByPriority;
  }

  /** `test_order_of_startstate`, second graph: now `y` heads the longer chain and is listed last. */
  lemma OrderOfStartStateMirrored(prio: map<Key, int>)
    requires PriorityOK(prio, LongChainY().Keys) && Y in prio && B in prio && prio[B] < prio[Y]
    ensures StartStateFromDask(LongChainY(), prio).Ok?
    ensures StartStateFromDask(LongChainY(), prio).value.ready == [B, Y]
  {
    ChainYReady();
    SortTwo(B, Y, prio);
    hide LongChainY;
    hide LiteralValues;
    hide Dependencies;
    hide Dependents;
    hide InitiallyReady;
    hide InitialWaiting;
    hide InitialWaitingData;
    hide SortByPriority;
  }

  lemma ChainBReady()
    ensures RefsClosed(LongChainB()) && InitiallyReady(LongChainB()) == {Y, B} == {B, Y}
  {
    RefsOne(A);
    RefsOne(B);
    RefsOne(X);
    var g := LongChainB();
    assert Literals(g) == {A, X};
    assert !({B} <= {A, X});
  }

  lemma ChainYReady()
    ensures RefsClosed(LongChainY()) && InitiallyReady(LongChainY()) == {B, Y}
  {
    RefsOne(A);
    RefsOne(X);
    RefsOne(Y);
    var g := LongChainY();
    assert Literals(g) == {A, X};
    assert !({Y} <= {A, X});
  }

  /** `test_sort_key`: `sorted(['x', ('x', 1), ('z', 0), ('x', 0)], key=sortkey)`. */
  lemma SortKeyExample()
    ensures var l := [Name("x"), Tuple("x", [1]), Tuple("z", [0]), Tuple("x", [0])];
      var sorted := [Name("x"), Tuple("x", [0]), Tuple("x", [1]), Tuple("z", [0])];
      && SortedBySortKey(sorted) && multiset(sorted) == multiset(l)
      && forall s :: SortedBySortKey(s) && multiset(s) == multiset(l) ==> s == sorted
  {
    var l := [Name("x"), Tuple("x", [1]), Tuple("z", [0]), Tuple("x", [0])];
    var sorted := [Name("x"), Tuple("x", [0]), Tuple("x", [1]), Tuple("z", [0])];
    SortKeyExampleSorted();
    SortKeyExamplePermutes();
    hide SortKeyLess;
    hide SortedBySortKey;
    forall s | SortedBySortKey(s) && multiset(s) == multiset(l)
      ensures s == sorted
    {
      SortedBySortKeyUnique(s, sorted);
    }
  }

  lemma SortKeyExampleSorted()
    ensures SortedBySortKey([Name("x"), Tuple("x", [0]), Tuple("x", [1]), Tuple("z", [0])])
  {
    NameFirst();
    TuplesInOrder();
    hide SortKeyLess;
  }

  lemma SortKeyExamplePermutes()
    ensures multiset([Name("x"), Tuple("x", [0]), Tuple("x", [1]), Tuple("z", [0])])
         == multiset([Name("x"), Tuple("x", [1]), Tuple("z", [0]), Tuple("x", [0])])
  {
    hide SortKeyLess;
  }

  lemma NameFirst()
    ensures SortKeyLess(Name("x"), Tuple("x", [0]))
    ensures SortKeyLess(Name("x"), Tuple("x", [1]))
    ensures SortKeyLess(Name("x"), Tuple("z", [0]))
  {
    NamesBeforeTuples("x", "x", [0]);
    NamesBeforeTuples("x", "x", [1]);
    NamesBeforeTuples("x", "z", [0]);
  }

  lemma TuplesInOrder()
    ensures SortKeyLess(Tuple("x", [0]), Tuple("x", [1]))
    ensures SortKeyLess(Tuple("x", [0]), Tuple("z", [0]))
    ensures SortKeyLess(Tuple("x", [1]), Tuple("z", [0]))
  {
    TuplesLexicographic("x", [0], "x", [1]);
    TuplesLexicographic("x", [0], "z", [0]);
    TuplesLexicographic("x", [1], "z", [0]);
    assert StrLess("x", "z") by {
      assert Codes("x") == [120] && Codes("z") == [122];
    }
    assert LexLess([0], [1]);
  }

  /** The values of the diamond graph and a ranking that shows it acyclic. */
  function DiamondValues(): map<Key, Value>
  {
    map[X := VInt(1), Y := VInt(2), Z := VInt(2), W := VInt(4)]
  }

  function DiamondRank(): map<Key, nat>
  {
    map[X := 0, Y := 0, Z := 1, W := 2]
  }

  lemma DiamondRanked()
    ensures IsRank(Diamond(), DiamondRank())
  {
    DiamondDeps();
    DiamondClosed();
  }

  lemma DiamondAgree()
    ensures Agree(Diamond(), DiamondValues(), Builtins)
  {
    var g, values := Diamond(), DiamondValues();
    DiamondDeps();
    assert ResolveArgs([Ref(X)], values) == [VInt(1)];
    assert ResolveArgs([Ref(Z), Ref(Y)], values) == [VInt(2), VInt(2)] by {
      RefsTwo(Z, Y);
      assert [Ref(Z), Ref(Y)][1..] == [Ref(Y)];
      assert ResolveArgs([Ref(Y)], values) == [VInt(2)] by {
        assert [Ref(Y)][1..] == [];
      }
    }
  }

  /** The diamond is acyclic, and every key evaluates to its value in `DiamondValues`. */
  lemma DiamondEvaluates()
    ensures IsRank(Diamond(), DiamondRank())
    ensures forall k :: k in Diamond() ==> k in DiamondValues() && Eval(Diamond(), DiamondRank(), Builtins, k) == Ok(DiamondValues()[k])
  {
    var g, rank, values := Diamond(), DiamondRank(), DiamondValues();
    DiamondRanked();
    DiamondAgree();
    DiamondDeps();
    forall k | k in g
      ensures k in values && Eval(g, rank, Builtins, k) == Ok(values[k])
    {
      AgreeIsEval(g, rank, Builtins, values, k);
    }
  }

  lemma RequestsTwo(a: Key, b: Key)
    ensures RequestsKeys([One(a), One(b)]) == {a, b}
  {
    assert [One(a), One(b)][1..] == [One(b)];
    assert RequestsKeys([One(b)]) == {b} + RequestsKeys([]);
  }

  lemma GetsOne(g: Graph, rank: map<Key, nat>, exec: Exec, b: Key, vb: Value)
    requires IsRank(g, rank) && b in g
    requires Eval(g, rank, exec, b) == Ok(vb)
    ensures RequestsKeys([One(b)]) == {b}
    ensures ReferenceGets(g, rank, exec, [One(b)]) == Ok([vb])
  {
    assert [One(b)][1..] == [];
    assert RequestsKeys([]) == {};
    assert RequestsKeys([One(b)]) == {b};
    hide Eval;
    assert ReferenceGet(g, rank, exec, One(b)) == Ok(vb);
    assert ReferenceGets(g, rank, exec, []) == Ok([]);
    assert [vb] + [] == [vb];
  }

  lemma GetsTwo(g: Graph, rank: map<Key, nat>, exec: Exec, a: Key, b: Key, va: Value, vb: Value)
    requires IsRank(g, rank) && a in g && b in g
    requires Eval(g, rank, exec, a) == Ok(va) && Eval(g, rank, exec, b) == Ok(vb)
    ensures RequestsKeys([One(a), One(b)]) == {a, b}
    ensures ReferenceGets(g, rank, exec, [One(a), One(b)]) == Ok([va, vb])
  {
    RequestsTwo(a, b);
    GetsOne(g, rank, exec, b, vb);
    hide Eval;
    assert ReferenceGet(g, rank, exec, One(a)) == Ok(va);
    assert [One(a), One(b)][1..] == [One(b)];
    assert [va] + [vb] == [va, vb];
  }

  lemma PairReference()
    ensures IsRank(Diamond(), DiamondRank())
    ensures RequestsKeys([One(W), One(Z)]) <= Diamond().Keys
    ensures ReferenceGets(Diamond(), DiamondRank(), Builtins, [One(W), One(Z)]) == Ok([VInt(4), VInt(2)])
  {
    DiamondEvaluates();
    assert W in Diamond() && Z in Diamond();
    assert DiamondValues()[W] == VInt(4) && DiamondValues()[Z] == VInt(2);
    GetsTwo(Diamond(), DiamondRank(), Builtins, W, Z, VInt(4), VInt(2));
  }

  /** A run that reaches no error answers the request as the reference does. */
  lemma ReferenceAnswers(g: Graph, rank: map<Key, nat>, exec: Exec, r: Request, expected: Value,
                         res: Result<Value, RunError>)
    requires IsRank(g, rank) && RequestKeys(r) <= g.Keys
    requires forall k :: k in g ==> Eval(g, rank, exec, k).Ok?
    requires ReferenceGet(g, rank, exec, r) == Ok(expected)
    requires res != Err(MissingOutput) && !(res.Err? && res.error.BadGraph?)
    requires res == Err(Cycle) ==> forall rank' :: !IsRank(g, rank')
    requires res.Err? && res.error.TaskFailed? ==>
      && res.error.key in g
      && forall rank' :: IsRank(g, rank') ==> Eval(g, rank', exec, res.error.key) == Err(res.error.message)
    requires res.Ok? ==> forall rank' :: IsRank(g, rank') ==> ReferenceGet(g, rank', exec, r) == Ok(res.value)
    ensures res == Ok(expected)
  {
  }

  /** `get_sync(dsk, 'w') == 4` on the diamond. */
  method GetExample() returns (r: Result<Value, RunError>)
    ensures r == Ok(VInt(4))
  {
    DiamondDeps();
    DiamondClosed();
    DiamondEvaluates();
    ghost var rank;
    r, rank := GetSync(Diamond(), One(W), DiamondPrio(), Builtins);
    ReferenceAnswers(Diamond(), DiamondRank(), Builtins, One(W), VInt(4), r);
  }

  /** `get_sync(dsk, ['w', 'z']) == (4, 2)` on the diamond. */
  method GetListExample() returns (r: Result<Value, RunError>)
    ensures r == Ok(VTuple([VInt(4), VInt(2)]))
  {
    var request := Many([One(W), One(Z)]);
    DiamondDeps();
    DiamondClosed();
    DiamondEvaluates();
    RequestsTwo(W, Z);
    PairReference();
    ghost var rank;
    r, rank := GetSync(Diamond(), request, DiamondPrio(), Builtins);
    ReferenceAnswers(Diamond(), DiamondRank(), Builtins, request, VTuple([VInt(4), VInt(2)]), r);
  }

  /** `{'x': 1, 'y': 2, 'a': (add, 'x', 'y'), 'b': (sum, ['x', 'y'])}`: `b` reads a nested list. */
  function NestedGraph(): Graph
  {
    map[X := Literal(VInt(1)), Y := Literal(VInt(2)),
        A := Call("add", [Ref(X), Ref(Y)]), B := Call("sum", [Nest([Ref(X), Ref(Y)])])]
  }

  function NestedPrio(): map<Key, int>
  {
    map[X := 0, Y := 1, A := 2, B := 3]
  }

  function NestedValues(): map<Key, Value>
  {
    map[X := VInt(1), Y := VInt(2), A := VInt(3), B := VInt(3)]
  }

  function NestedRank(): map<Key, nat>
  {
    map[X := 0, Y := 0, A := 1, B := 1]
  }

  lemma NestedDeps()
    ensures NestedGraph().Keys == {X, Y, A, B}
    ensures DepsOf(NestedGraph()[X]) == {} && DepsOf(NestedGraph()[Y]) == {}
    ensures DepsOf(NestedGraph()[A]) == {X, Y} && DepsOf(NestedGraph()[B]) == {X, Y}
  {
    RefsTwo(X, Y);
    assert ArgsRefs([Nest([Ref(X), Ref(Y)])]) == ArgRefs(Nest([Ref(X), Ref(Y)])) + ArgsRefs([]);
  }

  lemma NestedRanked()
    ensures IsRank(NestedGraph(), NestedRank())
  {
    var g, rank := NestedGraph(), NestedRank();
    NestedDeps();
    assert RefsClosed(g);
    forall k, d | k in g && d in DepsOf(g[k])
      ensures rank[d] < rank[k]
    {
      assert k == A || k == B;
      assert d == X || d == Y;
    }
  }

  lemma NestedPriority()
    ensures PriorityOK(NestedPrio(), NestedGraph().Keys)
  {
    NestedDeps();
  }

  lemma SumTwo(a: int, b: int)
    ensures Builtins("sum", [VList([VInt(a), VInt(b)])]) == Ok(VInt(a + b))
  {
    assert [VInt(a), VInt(b)][1..] == [VInt(b)];
    assert SumInts([VInt(b)]) == Some(b) by {
      assert [VInt(b)][1..] == [];
    }
  }

  lemma NestedAgree()
    ensures Agree(NestedGraph(), NestedValues(), Builtins)
  {
    var g, values := NestedGraph(), NestedValues();
    NestedDeps();
    RefsTwo(X, Y);
    assert ResolveArgs([Ref(X), Ref(Y)], values) == [VInt(1), VInt(2)] by {
      assert [Ref(X), Ref(Y)][1..] == [Ref(Y)];
      assert ResolveArgs([Ref(Y)], values) == [VInt(2)] by {
        assert [Ref(Y)][1..] == [];
      }
    }
    assert ResolveArgs([Nest([Ref(X), Ref(Y)])], values) == [VList([VInt(1), VInt(2)])] by {
      assert [Nest([Ref(X), Ref(Y)])][1..] == [];
    }
    SumTwo(1, 2);
  }

  /** The nested graph is acyclic, and every key evaluates to its value in `NestedValues`. */
  lemma NestedEvaluates()
    ensures IsRank(NestedGraph(), NestedRank())
    ensures forall k :: k in NestedGraph() ==> k in NestedValues() && Eval(NestedGraph(), NestedRank(), Builtins, k) == Ok(NestedValues()[k])
  {
    var g, rank, values := NestedGraph(), NestedRank(), NestedValues();
    NestedRanked();
    NestedAgree();
    NestedDeps();
    forall k | k in g
      ensures k in values && Eval(g, rank, Builtins, k) == Ok(values[k])
    {
      AgreeIsEval(g, rank, Builtins, values, k);
    }
  }

  lemma NestedPairReference()
    ensures IsRank(NestedGraph(), NestedRank())
    ensures RequestsKeys([One(A), One(B)]) <= NestedGraph().Keys
    ensures ReferenceGets(NestedGraph(), NestedRank(), Builtins, [One(A), One(B)]) == Ok([VInt(3), VInt(3)])
  {
    NestedEvaluates();
    assert A in NestedGraph() && B in NestedGraph();
    assert NestedValues()[A] == VInt(3) && NestedValues()[B] == VInt(3);
    GetsTwo(NestedGraph(), NestedRank(), Builtins, A, B, VInt(3), VInt(3));
  }

  /** `get_sync(dsk, ['a', 'b']) == (3, 3)`: a task reading a list of keys sees their values. */
  method NestedGetExample() returns (r: Result<Value, RunError>)
    ensures r == Ok(VTuple([VInt(3), VInt(3)]))
  {
    var request := Many([One(A), One(B)]);
    NestedPriority();
    NestedEvaluates();
    NestedPairReference();
    ghost var rank;
    r, rank := GetSync(NestedGraph(), request, NestedPrio(), Builtins);
    ReferenceAnswers(NestedGraph(), NestedRank(), Builtins, request, VTuple([VInt(3), VInt(3)]), r);
  }

  /** `{a: (f,), b: (f,), c: (f, 'b')}`: two independent tasks, and a reader of `b`. */
  function Fanout(): Graph
  {
    map[A := Call("f", []), B := Call("f", []), C := Call("f", [Ref(B)])]
  }

  function FanoutPrio(): map<Key, int>
  {
    map[A := 1, B := 5, C := 0]
  }

  lemma FanoutDeps()
    ensures Fanout().Keys == {A, B, C}
    ensures DepsOf(Fanout()[A]) == {} && DepsOf(Fanout()[B]) == {} && DepsOf(Fanout()[C]) == {B}
    ensures Literals(Fanout()) == {}
  {
    RefsOne(B);
    assert ArgsRefs([]) == {};
    assert Literals(Fanout()) == {};
  }

  lemma FanoutParts()
    ensures RefsClosed(Fanout()) && PriorityOK(FanoutPrio(), Fanout().Keys)
    ensures Dependents(Fanout())[B] == {C} && B in Dependencies(Fanout())
  {
    FanoutDeps();
    ReadersAre(Fanout(), B, {C});
  }

  lemma FanoutReady()
    ensures InitiallyReady(Fanout()) == {A, B}
  {
    FanoutDeps();
    var ready := InitiallyReady(Fanout());
    assert forall k :: k in ready <==> k == A || k == B;
  }

  lemma FanoutWaiting()
    ensures InitialWaiting(Fanout()) == map[C := {B}]
  {
    FanoutDeps();
    var w := InitialWaiting(Fanout());
    assert A !in w && B !in w && C in w;
    assert w.Keys == {C};
    assert w[C] == {B};
  }

  lemma FanoutStart()
    ensures StartStateFromDask(Fanout(), FanoutPrio()).Ok?
    ensures var s := StartStateFromDask(Fanout(), FanoutPrio()).value;
      && s.ready == [A, B] && s.readySet == {A, B} && s.running == {}
      && s.waiting == map[C := {B}] && B in s.dependents && s.dependents[B] == {C} && B in s.dependencies
  {
    FanoutParts();
    FanoutReady();
    FanoutWaiting();
    SortTwo(A, B, FanoutPrio());
    hide Fanout;
    hide LiteralValues;
    hide Dependencies;
    hide Dependents;
    hide InitiallyReady;
    hide InitialWaiting;
    hide InitialWaitingData;
    hide SortByPriority;
  }

  /** Popping `b` from the start state leaves `a` ready and `b` running. */
  lemma FanoutPop(s0: State)
    requires s0.ready == [A, B] && s0.readySet == {A, B} && s0.running == {}
    requires s0.waiting == map[C := {B}] && B in s0.dependents && s0.dependents[B] == {C}
    requires B in s0.dependencies
    ensures var s2 := PopTransition(s0).(cache := s0.cache[B := VInt(0)]);
      && s2.ready == [A] && s2.running == {B} && s2.waiting == map[C := {B}]
      && B in s2.dependents && s2.dependents[B] == {C} && B in s2.dependencies
  {
    assert s0.ready[..1] == [A];
  }

  /** Finishing `b` with `a` still ready appends its reader `c` after `a`. */
  lemma FanoutFinish(s: State)
    requires s.ready == [A] && s.running == {B} && s.waiting == map[C := {B}]
    requires B in s.dependents && s.dependents[B] == {C} && B in s.dependencies
    ensures CanFinish(s, B, FanoutPrio())
    ensures FinishTransition(s, B, {}, FanoutPrio()).ready == [A, C]
  {
    assert NewlyReady(s, B) == {C} by {
      assert s.waiting[C] - {B} == {};
    }
    SortOne(C, FanoutPrio());
    assert [A] + [C] == [A, C];
  }

  /**
    Appending newly ready keys does not keep `ready` in priority order: `c`
    becomes ready behind `a` although it is less urgent, and it is the key
    popped next.
   */
  lemma AppendedAfterReady()
    ensures StartStateFromDask(Fanout(), FanoutPrio()).Ok?
    ensures var s0 := StartStateFromDask(Fanout(), FanoutPrio()).value;
      && s0.ready == [A, B]
      && var s2 := PopTransition(s0).(cache := s0.cache[B := VInt(0)]);
      && CanFinish(s2, B, FanoutPrio())
      && FinishTransition(s2, B, {}, FanoutPrio()).ready == [A, C]
      && FanoutPrio()[C] < FanoutPrio()[A]
  {
    hide StartStateFromDask;
    hide PopTransition;
    hide FinishTransition;
    hide CanFinish;
    FanoutStart();
    var s0 := StartStateFromDask(Fanout(), FanoutPrio()).value;
    FanoutPop(s0);
    FanoutFinish(PopTransition(s0).(cache := s0.cache[B := VInt(0)]));
  }

  /** `f` raises; every other function returns 7. */
  function Flaky(f: FuncId, args: seq<Value>): Result<Value, string>
  {
    if f == "f" then Err("boom") else Ok(VInt(7))
  }

  /** `{a: (f,), c: (g,)}`: two independent tasks, of which only `c` is requested below. */
  function Unneeded(): Graph
  {
    map[A := Call("f", []), C := Call("g", [])]
  }

  function UnneededPrio(): map<Key, int>
  {
    map[A := 0, C := 1]
  }

  function UnneededRank(): map<Key, nat>
  {
    map[A := 0, C := 0]
  }

  lemma UnneededEvaluates()
    ensures PriorityOK(UnneededPrio(), Unneeded().Keys)
    ensures IsRank(Unneeded(), UnneededRank())
    ensures Eval(Unneeded(), UnneededRank(), Flaky, A) == Err("boom")
    ensures Eval(Unneeded(), UnneededRank(), Flaky, C) == Ok(VInt(7))
  {
    assert ArgsRefs([]) == {};
    assert Unneeded().Keys == {A, C};
  }

  /**
    Requesting only `c` still runs `a`, whose failure ends the run: the
    driver computes the whole graph.
   */
  method UnneededFailureExample() returns (r: Result<Value, RunError>)
    ensures r == Err(TaskFailed(A, "boom"))
  {
    UnneededEvaluates();
    ghost var rank;
    r, rank := GetSync(Unneeded(), One(C), UnneededPrio(), Flaky);
    assert r.Err? && r.error.TaskFailed?;
    assert Eval(Unneeded(), UnneededRank(), Flaky, r.error.key) == Err(r.error.message);
  }
}
