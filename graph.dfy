/**
  Task graphs: each key maps to a literal value, an alias of another key, or a
  call of a task function on argument specs.  An argument spec is a key
  reference, a literal, or a nested list of specs (as in `(sum, ['x', 'y'])`).

  This module gives the dependencies of a key, the inverse `dependents`
  relation, the execution of one task against a cache of computed values, and
  a reference evaluation of a whole acyclic graph.
 */
module Graphs {
  import opened Keys
  import opened Results

  /** The values tasks compute: Python ints, strings, lists and tuples. */
  datatype Value = VInt(i: int) | VStr(s: string) | VList(items: seq<Value>) | VTuple(items: seq<Value>)

  /** The name of a task function such as "inc", "add" or "sum". */
  type FuncId = string

  /** Calling a task function on its resolved arguments: a value or the error it raises. */
  type Exec = (FuncId, seq<Value>) -> Result<Value, string>

  datatype Arg = Ref(key: Key) | Lit(value: Value) | Nest(items: seq<Arg>)

  datatype Entry = Literal(value: Value) | Alias(target: Key) | Call(func: FuncId, args: seq<Arg>)

  type Graph = map<Key, Entry>

  /** The keys an argument spec refers to, however deeply nested. */
  function ArgRefs(a: Arg): set<Key>
  {
    match a
    case Ref(k) => {k}
    case Lit(_) => {}
    case Nest(items) => ArgsRefs(items)
  }

  function ArgsRefs(args: seq<Arg>): set<Key>
  {
    if args == [] then {} else ArgRefs(args[0]) + ArgsRefs(args[1..])
  }

  /** The keys an entry reads directly: `dependencies[key]`. */
  function DepsOf(e: Entry): set<Key>
  {
    match e
    case Literal(_) => {}
    case Alias(t) => {t}
    case Call(_, args) => ArgsRefs(args)
  }

  /** A size measure on argument specs, for termination. */
  function ArgSize(a: Arg): nat
  {
    match a
    case Nest(items) => ArgsSize(items) + 1
    case _ => 1
  }

  function ArgsSize(args: seq<Arg>): nat
  {
    if args == [] then 0 else ArgSize(args[0]) + ArgsSize(args[1..]) + 1
  }

  lemma {:induction false} ArgsAppend(a: seq<Arg>, b: seq<Arg>)
    ensures ArgsRefs(a + b) == ArgsRefs(a) + ArgsRefs(b)
    ensures ArgsSize(a + b) == ArgsSize(a) + ArgsSize(b)
  {
    if a != [] {
      assert (a + b)[0] == a[0] && (a + b)[1..] == a[1..] + b;
      ArgsAppend(a[1..], b);
      assert ArgsRefs(a + b) == ArgRefs(a[0]) + ArgsRefs(a[1..] + b);
      assert ArgsSize(a + b) == ArgSize(a[0]) + ArgsSize(a[1..] + b) + 1;
    } else {
      assert a + b == b;
    }
  }

  /**
    `get_dependencies(dsk, key)`: walks the entry's argument specs with an
    explicit stack, collecting every key reference.
   */
  method GetDependencies(dsk: Graph, key: Key) returns (deps: set<Key>)
    requires key in dsk
    ensures deps == DepsOf(dsk[key])
  {
    match dsk[key]
    case Literal(_) =>
      deps := {};
    case Alias(t) =>
      deps := {t};
    case Call(_, args) =>
      var stack := args;
      deps := {};
      while stack != []
        invariant deps + ArgsRefs(stack) == ArgsRefs(args)
        decreases ArgsSize(stack)
      {
        var top := stack[|stack| - 1];
        var rest := stack[..|stack| - 1];
        assert stack == rest + [top];
        ArgsAppend(rest, [top]);
        stack := rest;
        match top
        case Ref(k) =>
          deps := deps + {k};
        case Lit(_) =>
        case Nest(items) =>
          ArgsAppend(rest, items);
          stack := rest + items;
      }
  }

  /** Every reference of every entry names a key of the graph. */
  predicate RefsClosed(g: Graph)
  {
    forall k :: k in g ==> DepsOf(g[k]) <= g.Keys
  }

  function Literals(g: Graph): set<Key>
  {
    set k | k in g && g[k].Literal?
  }

  /** The keys that have to be computed: aliases and calls. */
  function Tasks(g: Graph): set<Key>
  {
    set k | k in g && !g[k].Literal?
  }

  /** The `dependencies` mapping: every key to the keys it reads. */
  function Dependencies(g: Graph): (r: map<Key, set<Key>>)
  {
    map k | k in g :: DepsOf(g[k])
  }

  /** The keys of the graph that read `k`. */
  function Readers(g: Graph, k: Key): set<Key>
  {
    set j | j in g && k in DepsOf(g[j])
  }

  /** The `dependents` mapping: every key to the keys that read it. */
  function Dependents(g: Graph): (r: map<Key, set<Key>>)
  {
    map k | k in g :: Readers(g, k)
  }

  /** `dependencies` and `dependents` are exact inverses over the keys of the graph. */
  lemma DependentsInverse(g: Graph, a: Key, b: Key)
    requires RefsClosed(g)
    ensures Dependencies(g).Keys == g.Keys == Dependents(g).Keys
    ensures a in g && b in g ==> (a in Dependencies(g)[b] <==> b in Dependents(g)[a])
    ensures a in g && b in Dependencies(g)[a] ==> b in g
  {
  }

  /** Resolves an argument spec against the cache: `_execute_task` on an argument. */
  function ResolveArg(a: Arg, cache: map<Key, Value>): (v: Value)
    requires ArgRefs(a) <= cache.Keys
    ensures a.Ref? ==> v == cache[a.key]
    ensures a.Lit? ==> v == a.value
    ensures a.Nest? ==> v.VList? && |v.items| == |a.items|
    ensures a.Nest? ==> forall i :: 0 <= i < |a.items| ==>
      ArgRefs(a.items[i]) <= cache.Keys && v.items[i] == ResolveArg(a.items[i], cache)
  {
    match a
    case Ref(k) => cache[k]
    case Lit(v) => v
    case Nest(items) => VList(ResolveArgs(items, cache))
  }

  function ResolveArgs(args: seq<Arg>, cache: map<Key, Value>): (r: seq<Value>)
    requires ArgsRefs(args) <= cache.Keys
    ensures |r| == |args|
    ensures forall i :: 0 <= i < |args| ==>
      ArgRefs(args[i]) <= cache.Keys && r[i] == ResolveArg(args[i], cache)
  {
    if args == [] then [] else [ResolveArg(args[0], cache)] + ResolveArgs(args[1..], cache)
  }

  /** Runs one entry against the cache: a literal is itself, an alias reads its target. */
  function ExecuteTask(e: Entry, cache: map<Key, Value>, exec: Exec): (r: Result<Value, string>)
    requires DepsOf(e) <= cache.Keys
    ensures !e.Call? ==> r.Ok?
    ensures e.Literal? ==> r == Ok(e.value)
    ensures e.Alias? ==> r == Ok(cache[e.target])
  {
    match e
    case Literal(v) => Ok(v)
    case Alias(t) => Ok(cache[t])
    case Call(f, args) => exec(f, ResolveArgs(args, cache))
  }

  /** Two caches that agree on the keys an argument reads resolve it alike. */
  lemma {:induction false} ResolveLocal(args: seq<Arg>, c1: map<Key, Value>, c2: map<Key, Value>)
    requires ArgsRefs(args) <= c1.Keys && ArgsRefs(args) <= c2.Keys
    requires forall k :: k in ArgsRefs(args) ==> c1[k] == c2[k]
    ensures ResolveArgs(args, c1) == ResolveArgs(args, c2)
  {
    if args != [] {
      if args[0].Nest? {
        ResolveLocal(args[0].items, c1, c2);
      }
      ResolveLocal(args[1..], c1, c2);
    }
  }

  /** A task's outcome depends only on the cached values of its dependencies. */
  lemma ExecuteLocal(e: Entry, c1: map<Key, Value>, c2: map<Key, Value>, exec: Exec)
    requires DepsOf(e) <= c1.Keys && DepsOf(e) <= c2.Keys
    requires forall k :: k in DepsOf(e) ==> c1[k] == c2[k]
    ensures ExecuteTask(e, c1, exec) == ExecuteTask(e, c2, exec)
  {
    if e.Call? {
      ResolveLocal(e.args, c1, c2);
    }
  }

  /** `rank` witnesses that the graph is acyclic: every key outranks what it reads. */
  ghost predicate IsRank(g: Graph, rank: map<Key, nat>)
  {
    && RefsClosed(g)
    && g.Keys <= rank.Keys
    && forall k, d :: k in g && d in DepsOf(g[k]) ==> rank[d] < rank[k]
  }

  /**
    Reference semantics of an acyclic graph: the value of a key, computed by
    evaluating what it reads first.  The first failing argument decides the
    error.
   */
  function Eval(g: Graph, rank: map<Key, nat>, exec: Exec, k: Key): Result<Value, string>
    requires IsRank(g, rank) && k in g
    decreases rank[k] + 1, 0
  {
    match g[k]
    case Literal(v) => Ok(v)
    case Alias(t) => Eval(g, rank, exec, t)
    case Call(f, args) =>
      match EvalArgs(g, rank, exec, rank[k], args)
      case Ok(vs) => exec(f, vs)
      case Err(e) => Err(e)
  }

  function EvalArg(g: Graph, rank: map<Key, nat>, exec: Exec, bound: nat, a: Arg): Result<Value, string>
    requires IsRank(g, rank)
    requires forall r :: r in ArgRefs(a) ==> r in g && rank[r] < bound
    decreases bound, ArgSize(a)
  {
    match a
    case Ref(r) => Eval(g, rank, exec, r)
    case Lit(v) => Ok(v)
    case Nest(items) =>
      match EvalArgs(g, rank, exec, bound, items)
      case Ok(vs) => Ok(VList(vs))
      case Err(e) => Err(e)
  }

  function EvalArgs(g: Graph, rank: map<Key, nat>, exec: Exec, bound: nat, args: seq<Arg>): Result<seq<Value>, string>
    requires IsRank(g, rank)
    requires forall r :: r in ArgsRefs(args) ==> r in g && rank[r] < bound
    decreases bound, ArgsSize(args)
  {
    if args == [] then Ok([])
    else
      match EvalArg(g, rank, exec, bound, args[0])
      case Err(e) => Err(e)
      case Ok(v) =>
        match EvalArgs(g, rank, exec, bound, args[1..])
        case Ok(vs) => Ok([v] + vs)
        case Err(e) => Err(e)
  }

  /**
    `values` is a consistent record of computed results: each key's value is
    what executing its entry gives on the values of its dependencies, which
    are all recorded too.
   */
  ghost predicate Agree(g: Graph, values: map<Key, Value>, exec: Exec)
  {
    forall k :: k in values ==>
      && k in g
      && DepsOf(g[k]) <= values.Keys
      && ExecuteTask(g[k], values, exec) == Ok(values[k])
  }

  /**
    On an acyclic graph, a consistent record of results holds exactly the
    reference values: whatever order produced it, it agrees with `Eval`.
   */
  lemma {:induction false} AgreeIsEval(g: Graph, rank: map<Key, nat>, exec: Exec, values: map<Key, Value>, k: Key)
    requires IsRank(g, rank) && Agree(g, values, exec) && k in values
    ensures Eval(g, rank, exec, k) == Ok(values[k])
    decreases rank[k] + 1, 0
  {
    match g[k]
    case Literal(v) =>
    case Alias(t) =>
      AgreeIsEval(g, rank, exec, values, t);
    case Call(f, args) =>
      AgreeArgsAreEval(g, rank, exec, values, rank[k], args);
  }

  lemma {:induction false} AgreeArgsAreEval(g: Graph, rank: map<Key, nat>, exec: Exec, values: map<Key, Value>, bound: nat, args: seq<Arg>)
    requires IsRank(g, rank) && Agree(g, values, exec)
    requires ArgsRefs(args) <= values.Keys
    requires forall r :: r in ArgsRefs(args) ==> r in g && rank[r] < bound
    ensures EvalArgs(g, rank, exec, bound, args) == Ok(ResolveArgs(args, values))
    decreases bound, ArgsSize(args)
  {
    if args != [] {
      match args[0] {
        case Ref(r) => AgreeIsEval(g, rank, exec, values, r);
        case Lit(_) =>
        case Nest(items) =>
          assert ArgSize(args[0]) == ArgsSize(items) + 1;
          AgreeArgsAreEval(g, rank, exec, values, bound, items);
      }
      AgreeArgsAreEval(g, rank, exec, values, bound, args[1..]);
    }
  }

  /**
    A task whose execution fails on consistent results of its dependencies
    fails in the reference semantics with the same error.
   */
  lemma FailureIsEvalFailure(g: Graph, rank: map<Key, nat>, exec: Exec, values: map<Key, Value>, k: Key, msg: string)
    requires IsRank(g, rank) && Agree(g, values, exec) && k in g
    requires DepsOf(g[k]) <= values.Keys
    requires ExecuteTask(g[k], values, exec) == Err(msg)
    ensures Eval(g, rank, exec, k) == Err(msg)
  {
    if g[k].Call? {
      AgreeArgsAreEval(g, rank, exec, values, rank[k], g[k].args);
    }
  }
}
