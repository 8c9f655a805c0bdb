/** Sums and multiset sums over finite sets, for totals over the nodes of a cluster. */
module Sums {

  ghost function Sum<K(!new)>(s: set<K>, f: K -> int): int {
    if s == {} then 0 else
      var k :| k in s;
      f(k) + Sum(s - {k}, f)
  }

  lemma {:induction false} SumSplit<K(!new)>(s: set<K>, f: K -> int, k: K)
    requires k in s
    ensures Sum(s, f) == f(k) + Sum(s - {k}, f)
  {
    var j :| j in s && Sum(s, f) == f(j) + Sum(s - {j}, f);
    if j != k {
      SumSplit(s - {j}, f, k);
      SumSplit(s - {k}, f, j);
      assert s - {j} - {k} == s - {k} - {j};
    }
  }

  lemma {:induction false} SumSame<K(!new)>(s: set<K>, f: K -> int, g: K -> int)
    requires forall k :: k in s ==> f(k) == g(k)
    ensures Sum(s, f) == Sum(s, g)
  {
    if s != {} {
      var k :| k in s;
      SumSplit(s, f, k);
      SumSplit(s, g, k);
      SumSame(s - {k}, f, g);
    }
  }

  /** Two summands change, the rest stay. */
  lemma SumTransfer<K(!new)>(s: set<K>, f: K -> int, g: K -> int, a: K, b: K)
    requires a in s && b in s && a != b
    requires forall k :: k in s && k != a && k != b ==> f(k) == g(k)
    ensures Sum(s, g) - Sum(s, f) == (g(a) - f(a)) + (g(b) - f(b))
  {
    SumSplit(s, f, a);
    SumSplit(s, g, a);
    SumSplit(s - {a}, f, b);
    SumSplit(s - {a}, g, b);
    SumSame(s - {a} - {b}, f, g);
  }

  lemma {:induction false} SumPart<K(!new)>(s: set<K>, t: set<K>, f: K -> int)
    requires t <= s
    ensures Sum(s, f) == Sum(t, f) + Sum(s - t, f)
    decreases t
  {
    if t == {} {
      assert s - t == s;
    } else {
      var k :| k in t;
      SumSplit(s, f, k);
      SumSplit(t, f, k);
      SumPart(s - {k}, t - {k}, f);
      assert s - {k} - (t - {k}) == s - t;
    }
  }

  ghost function Union<K(!new), T>(s: set<K>, f: K -> multiset<T>): multiset<T> {
    if s == {} then multiset{} else
      var k :| k in s;
      f(k) + Union(s - {k}, f)
  }

  lemma {:induction false} UnionSplit<K(!new), T>(s: set<K>, f: K -> multiset<T>, k: K)
    requires k in s
    ensures Union(s, f) == f(k) + Union(s - {k}, f)
  {
    var j :| j in s && Union(s, f) == f(j) + Union(s - {j}, f);
    if j != k {
      UnionSplit(s - {j}, f, k);
      UnionSplit(s - {k}, f, j);
      assert s - {j} - {k} == s - {k} - {j};
    }
  }

  lemma {:induction false} UnionSame<K(!new), T>(s: set<K>, f: K -> multiset<T>, g: K -> multiset<T>)
    requires forall k :: k in s ==> f(k) == g(k)
    ensures Union(s, f) == Union(s, g)
  {
    if s != {} {
      var k :| k in s;
      UnionSplit(s, f, k);
      UnionSplit(s, g, k);
      UnionSame(s - {k}, f, g);
    }
  }
}
