/**
  Keys of a task graph and the `sortkey` order on them.

  A key is either a plain name such as 'x' or a tuple key such as ('x', 0, 1):
  a name followed by integer indices.  `sortkey` maps a key to the pair
  (name of its Python type, the key itself), so that keys of different types
  can be compared: every plain name sorts before every tuple key, names
  compare as Python strings (code point by code point, a prefix first) and
  tuple keys compare component by component.
 */
module Keys {

  datatype Key = Name(s: string) | Tuple(name: string, indices: seq<int>)

  /** The Python type name of a key: the first component of its sort key. */
  function TypeName(k: Key): string
  {
    match k
    case Name(_) => "str"
    case Tuple(_, _) => "tuple"
  }

  /** `sortkey(item)`: the pair (type name, item). */
  function SortKey(k: Key): (r: (string, Key))
    ensures r.1 == k
    ensures r.0 == "str" <==> k.Name?
  {
    (TypeName(k), k)
  }

  /** Lexicographic "less than" on integer sequences, a proper prefix first. */
  function LexLess(a: seq<int>, b: seq<int>): bool
  {
    if |b| == 0 then false
    else if |a| == 0 then true
    else if a[0] != b[0] then a[0] < b[0]
    else LexLess(a[1..], b[1..])
  }

  /** The code points of a string. */
  function Codes(s: string): (r: seq<int>)
    ensures |r| == |s|
    ensures forall i :: 0 <= i < |s| ==> r[i] == s[i] as int
  {
    seq(|s|, i requires 0 <= i < |s| => s[i] as int)
  }

  /** Python's `<` on strings: by code points. */
  function StrLess(a: string, b: string): bool
  {
    LexLess(Codes(a), Codes(b))
  }

  /** Python's `<` on two items of the same type. */
  function ItemLess(a: Key, b: Key): bool
  {
    match (a, b)
    case (Name(x), Name(y)) => StrLess(x, y)
    case (Tuple(n, i), Tuple(m, j)) => StrLess(n, m) || (n == m && LexLess(i, j))
    // Items of different types are never compared: their type names differ.
    case _ => false
  }

  /** Python's `<` on the sort keys of `a` and `b`: a tuple comparison. */
  function SortKeyLess(a: Key, b: Key): (r: bool)
    ensures a.Name? && b.Tuple? ==> r
    ensures a.Tuple? && b.Name? ==> !r
  {
    assert Codes("str")[0] == 's' as int && Codes("tuple")[0] == 't' as int;
    var (ta, xa) := SortKey(a);
    var (tb, xb) := SortKey(b);
    StrLess(ta, tb) || (ta == tb && ItemLess(xa, xb))
  }

  lemma {:induction false} LexIrreflexive(a: seq<int>)
    ensures !LexLess(a, a)
  {
    if |a| > 0 {
      LexIrreflexive(a[1..]);
    }
  }

  lemma {:induction false} LexTransitive(a: seq<int>, b: seq<int>, c: seq<int>)
    requires LexLess(a, b) && LexLess(b, c)
    ensures LexLess(a, c)
  {
    if |a| > 0 && a[0] == b[0] && b[0] == c[0] {
      LexTransitive(a[1..], b[1..], c[1..]);
    }
  }

  lemma {:induction false} LexTotal(a: seq<int>, b: seq<int>)
    requires a != b
    ensures LexLess(a, b) || LexLess(b, a)
  {
    if |a| > 0 && |b| > 0 && a[0] == b[0] {
      assert a == [a[0]] + a[1..] && b == [b[0]] + b[1..];
      LexTotal(a[1..], b[1..]);
    }
  }

  lemma CodesInjective(a: string, b: string)
    requires Codes(a) == Codes(b)
    ensures a == b
  {
    assert forall i :: 0 <= i < |a| ==> a[i] as int == b[i] as int;
  }

  lemma StrTotal(a: string, b: string)
    requires a != b
    ensures StrLess(a, b) || StrLess(b, a)
  {
    if Codes(a) == Codes(b) {
      CodesInjective(a, b);
    }
    LexTotal(Codes(a), Codes(b));
  }

  /** Every plain name sorts before every tuple key. */
  lemma NamesBeforeTuples(s: string, name: string, indices: seq<int>)
    ensures SortKeyLess(Name(s), Tuple(name, indices))
    ensures !SortKeyLess(Tuple(name, indices), Name(s))
  {
    var str, tup := Codes("str"), Codes("tuple");
    assert str[0] == 's' as int && tup[0] == 't' as int;
  }

  /** Two tuple keys compare by name first and then by their indices. */
  lemma TuplesLexicographic(n: string, i: seq<int>, m: string, j: seq<int>)
    ensures SortKeyLess(Tuple(n, i), Tuple(m, j)) <==> StrLess(n, m) || (n == m && LexLess(i, j))
  {
    LexIrreflexive(Codes("tuple"));
  }

  /** `sortkey` induces a strict total order on keys. */
  lemma SortKeyStrictTotalOrder(a: Key, b: Key, c: Key)
    ensures !SortKeyLess(a, a)
    ensures SortKeyLess(a, b) && SortKeyLess(b, c) ==> SortKeyLess(a, c)
    ensures a != b ==> SortKeyLess(a, b) || SortKeyLess(b, a)
  {
    LexIrreflexive(Codes(TypeName(a)));
    match a {
      case Name(x) => LexIrreflexive(Codes(x));
      case Tuple(n, i) => LexIrreflexive(Codes(n)); LexIrreflexive(i);
    }
    if SortKeyLess(a, b) && SortKeyLess(b, c) {
      TransitiveStep(a, b, c);
    }
    if a != b {
      TotalStep(a, b);
    }
  }

  lemma TransitiveStep(a: Key, b: Key, c: Key)
    requires SortKeyLess(a, b) && SortKeyLess(b, c)
    ensures SortKeyLess(a, c)
  {
    var ta, tb, tc := TypeName(a), TypeName(b), TypeName(c);
    if StrLess(ta, tb) && StrLess(tb, tc) {
      LexTransitive(Codes(ta), Codes(tb), Codes(tc));
    } else if ta == tb && tb == tc {
      match (a, b, c)
      case (Name(x), Name(y), Name(z)) =>
        LexTransitive(Codes(x), Codes(y), Codes(z));
      case (Tuple(n, i), Tuple(m, j), Tuple(o, k)) =>
        if StrLess(n, m) && StrLess(m, o) {
          LexTransitive(Codes(n), Codes(m), Codes(o));
        } else if n == m && m == o {
          LexTransitive(i, j, k);
        }
    }
  }

  lemma TotalStep(a: Key, b: Key)
    requires a != b
    ensures SortKeyLess(a, b) || SortKeyLess(b, a)
  {
    match (a, b)
    case (Name(x), Name(y)) => StrTotal(x, y);
    case (Tuple(n, i), Tuple(m, j)) =>
      if n != m {
        StrTotal(n, m);
      } else {
        LexTotal(i, j);
      }
    case (Name(x), Tuple(n, i)) => NamesBeforeTuples(x, n, i);
    case (Tuple(n, i), Name(x)) => NamesBeforeTuples(x, n, i);
  }

  /** The keys of `s` are in strictly increasing `sortkey` order. */
  predicate SortedBySortKey(s: seq<Key>)
  {
    forall i, j :: 0 <= i < j < |s| ==> SortKeyLess(s[i], s[j])
  }

  /**
    A sorted arrangement of a collection of distinct keys is unique: whatever
    order `sorted(L, key=sortkey)` starts from, it returns the same list.
   */
  lemma {:induction false} SortedBySortKeyUnique(a: seq<Key>, b: seq<Key>)
    requires SortedBySortKey(a) && SortedBySortKey(b)
    requires multiset(a) == multiset(b)
    ensures a == b
  {
    if a != [] {
      assert b != [] by {
        assert a[0] in multiset(a);
      }
      if a[0] != b[0] {
        assert a[0] in multiset(b);
        assert b[0] in multiset(a);
        var i :| 0 <= i < |b| && b[i] == a[0];
        var j :| 0 <= j < |a| && a[j] == b[0];
        SortKeyStrictTotalOrder(a[0], b[0], a[0]);
        assert false;
      }
      assert a == [a[0]] + a[1..] && b == [b[0]] + b[1..];
      assert multiset(a) == multiset{a[0]} + multiset(a[1..]);
      assert multiset(b) == multiset{b[0]} + multiset(b[1..]);
      assert multiset(a[1..]) == multiset(a) - multiset{a[0]};
      assert multiset(b[1..]) == multiset(b) - multiset{b[0]};
      SortedBySortKeyUnique(a[1..], b[1..]);
    } else {
      assert |b| == |multiset(b)|;
    }
  }
}
