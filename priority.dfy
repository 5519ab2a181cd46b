/**
  Static priorities and the order of the `ready` list.

  The priority of every key is computed once from the shape of the graph by
  `order`; its numbering algorithm is not part of this model, so the
  priorities are a given map that covers the graph's keys and gives distinct
  keys distinct numbers.  The start state lists its ready keys in increasing
  priority, so the last, which the drivers pop, is the most urgent; keys
  that become ready later are appended after those already listed.
 */
module Priority {
  import opened Keys

  function Elems(s: seq<Key>): set<Key>
  {
    set k | k in s
  }

  /** `prio` numbers every key of `keys`, no two alike. */
  predicate PriorityOK(prio: map<Key, int>, keys: set<Key>)
  {
    && keys <= prio.Keys
    && forall a, b :: a in keys && b in keys && prio[a] == prio[b] ==> a == b
  }

  /** `s` lists keys in strictly increasing priority. */
  predicate Increasing(s: seq<Key>, prio: map<Key, int>)
  {
    && (forall i :: 0 <= i < |s| ==> s[i] in prio)
    && (forall i, j :: 0 <= i < j < |s| ==> prio[s[i]] < prio[s[j]])
  }

  lemma {:induction false} MaxExists(keys: set<Key>, prio: map<Key, int>)
    requires keys != {} && keys <= prio.Keys
    ensures exists m :: m in keys && forall x :: x in keys ==> prio[x] <= prio[m]
    decreases |keys|
  {
    var y :| y in keys;
    if keys - {y} != {} {
      MaxExists(keys - {y}, prio);
      var m :| m in keys - {y} && forall x :: x in keys - {y} ==> prio[x] <= prio[m];
      if prio[y] > prio[m] {
        assert forall x :: x in keys ==> prio[x] <= prio[y];
      }
    } else {
      assert keys == {y};
    }
  }

  /** `sorted(keys, key=prio.get)`: the keys of a set in increasing priority. */
  function SortByPriority(keys: set<Key>, prio: map<Key, int>): (r: seq<Key>)
    requires PriorityOK(prio, keys)
    ensures Increasing(r, prio) && Elems(r) == keys && |r| == |keys|
    decreases |keys|
  {
    if keys == {} then []
    else
      MaxExists(keys, prio);
      var m :| m in keys && forall x :: x in keys ==> prio[x] <= prio[m];
      var rest := SortByPriority(keys - {m}, prio);
      MaxLast(keys, m, rest, prio);
      rest + [m]
  }

  /** Appending the most urgent key of a set to the sorted rest sorts the whole set. */
  lemma MaxLast(keys: set<Key>, m: Key, rest: seq<Key>, prio: map<Key, int>)
    requires PriorityOK(prio, keys) && m in keys
    requires forall x :: x in keys ==> prio[x] <= prio[m]
    requires Increasing(rest, prio) && Elems(rest) == keys - {m} && |rest| == |keys - {m}|
    ensures Increasing(rest + [m], prio) && Elems(rest + [m]) == keys && |rest + [m]| == |keys|
  {
    assert forall x :: x in Elems(rest) ==> prio[x] < prio[m];
    SnocIncreasing(rest, m, prio);
    ElemsAppend(rest, [m]);
    assert Elems([m]) == {m};
    assert keys == (keys - {m}) + {m};
  }

  /** `s` lists no key twice. */
  predicate Distinct(s: seq<Key>)
  {
    forall i, j :: 0 <= i < j < |s| ==> s[i] != s[j]
  }

  lemma IncreasingDistinct(s: seq<Key>, prio: map<Key, int>)
    requires Increasing(s, prio)
    ensures Distinct(s)
  {
  }

  /** The elements of `s` that are in `keep`, in their order in `s`. */
  function Filter(s: seq<Key>, keep: set<Key>): (r: seq<Key>)
    ensures Elems(r) == Elems(s) * keep
  {
    if s == [] then []
    else
      var init, last := s[..|s| - 1], s[|s| - 1];
      assert Elems(s) == Elems(init) + {last} by {
        assert s == init + [last];
      }
      var tail := if last in keep then [last] else [];
      ElemsAppend(Filter(init, keep), tail);
      Filter(init, keep) + tail
  }

  lemma ElemsAppend(a: seq<Key>, b: seq<Key>)
    ensures Elems(a + b) == Elems(a) + Elems(b)
  {
    assert forall i :: 0 <= i < |a| ==> (a + b)[i] == a[i];
    assert forall i :: 0 <= i < |b| ==> (a + b)[|a| + i] == b[i];
  }

  lemma SnocIncreasing(s: seq<Key>, last: Key, prio: map<Key, int>)
    requires Increasing(s, prio) && last in prio
    requires forall x :: x in Elems(s) ==> prio[x] < prio[last]
    ensures Increasing(s + [last], prio)
  {
    assert forall i :: 0 <= i < |s| ==> s[i] in Elems(s);
  }

  /** Filtering keeps a list in increasing priority. */
  lemma {:induction false} FilterIncreasing(s: seq<Key>, keep: set<Key>, prio: map<Key, int>)
    requires Increasing(s, prio)
    ensures Increasing(Filter(s, keep), prio)
  {
    if s != [] {
      var init, last := s[..|s| - 1], s[|s| - 1];
      FilterIncreasing(init, keep, prio);
      if last in keep {
        assert forall x :: x in Elems(init) ==> prio[x] < prio[last] by {
          assert forall i :: 0 <= i < |init| ==> init[i] == s[i];
        }
        SnocIncreasing(Filter(init, keep), last, prio);
      }
    }
  }

  /** The part of a sorted set that lies in `keep` is the sorted intersection. */
  lemma FilterSorted(keys: set<Key>, keep: set<Key>, prio: map<Key, int>)
    requires PriorityOK(prio, keys)
    ensures Filter(SortByPriority(keys, prio), keep) == SortByPriority(keys * keep, prio)
  {
    FilterIncreasing(SortByPriority(keys, prio), keep, prio);
    IsSortByPriority(Filter(SortByPriority(keys, prio), keep), keys * keep, prio);
  }

  lemma ElemsEmpty(s: seq<Key>)
    ensures Elems(s) == {} <==> s == []
  {
    if s != [] {
      assert s[0] in Elems(s);
    }
  }

  /** A set has only one arrangement in increasing priority. */
  lemma {:induction false} IncreasingUnique(a: seq<Key>, b: seq<Key>, prio: map<Key, int>)
    requires Increasing(a, prio) && Increasing(b, prio)
    requires Elems(a) == Elems(b)
    ensures a == b
    decreases |a|
  {
    if a != [] {
      assert a[0] in Elems(b);
      assert b[0] in Elems(a);
      var i :| 0 <= i < |b| && b[i] == a[0];
      var j :| 0 <= j < |a| && a[j] == b[0];
      assert i == 0 || j == 0;
      assert Elems(a) == {a[0]} + Elems(a[1..]) && a[0] !in Elems(a[1..]);
      assert Elems(b) == {b[0]} + Elems(b[1..]) && b[0] !in Elems(b[1..]);
      IncreasingUnique(a[1..], b[1..], prio);
      assert a == [a[0]] + a[1..] && b == [b[0]] + b[1..];
    } else {
      ElemsEmpty(b);
    }
  }

  /** Any increasing arrangement of a set is the one `SortByPriority` builds. */
  lemma IsSortByPriority(s: seq<Key>, keys: set<Key>, prio: map<Key, int>)
    requires Increasing(s, prio) && Elems(s) == keys && PriorityOK(prio, keys)
    ensures s == SortByPriority(keys, prio)
  {
    IncreasingUnique(s, SortByPriority(keys, prio), prio);
  }
}
