/** Finite sums over maps and sequences, and enumerations of finite sets. */
module Sums {

  datatype Option<+T> = None | Some(value: T)

  function Max(a: int, b: int): (m: int)
    ensures m >= a && m >= b && (m == a || m == b)
  {
    if a < b then b else a
  }

  ghost function Pick<K, V>(m: map<K, V>): (k: K)
    requires m != map[]
    ensures k in m
  {
    var k :| k in m;
    k
  }

  /** The sum of all values of a finite map. */
  ghost function Total<K>(m: map<K, int>): int
    decreases m.Keys
  {
    if m == map[] then 0
    else
      var k := Pick(m);
      assert k in m.Keys && k !in (m - {k}).Keys;
      m[k] + Total(m - {k})
  }

  lemma {:induction false} TotalRemove<K>(m: map<K, int>, k: K)
    requires k in m
    ensures Total(m) == m[k] + Total(m - {k})
    decreases m.Keys
  {
    var x := Pick(m);
    if x != k {
      assert x in m.Keys && x !in (m - {x}).Keys && k in m.Keys && k !in (m - {k}).Keys;
      TotalRemove(m - {x}, k);
      TotalRemove(m - {k}, x);
      assert m - {x} - {k} == m - {k} - {x};
    }
  }

  lemma TotalUpdate<K>(m: map<K, int>, k: K, v: int)
    ensures Total(m[k := v]) == Total(m) + v - (if k in m then m[k] else 0)
  {
    TotalRemove(m[k := v], k);
    if k in m {
      TotalRemove(m, k);
      assert m[k := v] - {k} == m - {k};
    } else {
      assert m[k := v] - {k} == m;
    }
  }

  function Restricted<K, V>(m: map<K, V>, s: set<K>): map<K, V> {
    map k | k in m && k in s :: m[k]
  }

  lemma {:induction false} TotalSplit<K>(m: map<K, int>, s: set<K>)
    ensures Total(m) == Total(m - s) + Total(Restricted(m, s))
    decreases m.Keys
  {
    var inside := Restricted(m, s);
    if m == map[] {
      assert m - s == map[];
      assert inside == map[];
    } else {
      var x := Pick(m);
      TotalRemove(m, x);
      assert x in m.Keys && x !in (m - {x}).Keys;
      TotalSplit(m - {x}, s);
      assert Restricted(m - {x}, s) == inside - {x};
      if x in s {
        TotalRemove(inside, x);
        assert (m - {x}) - s == m - s;
      } else {
        TotalRemove(m - s, x);
        assert (m - {x}) - s == m - s - {x};
        assert inside - {x} == inside;
      }
    }
  }

  lemma {:induction false} TotalZero<K>(m: map<K, int>)
    requires forall k | k in m :: m[k] == 0
    ensures Total(m) == 0
    decreases m.Keys
  {
    if m != map[] {
      var k := Pick(m);
      TotalRemove(m, k);
      assert k in m.Keys && k !in (m - {k}).Keys;
      TotalZero(m - {k});
    }
  }

  lemma {:induction false} TotalNonNegative<K>(m: map<K, int>)
    requires forall k | k in m :: m[k] >= 0
    ensures Total(m) >= 0
    decreases m.Keys
  {
    if m != map[] {
      var k := Pick(m);
      TotalRemove(m, k);
      assert k in m.Keys && k !in (m - {k}).Keys;
      TotalNonNegative(m - {k});
    }
  }

  ghost predicate NoDuplicates<T>(s: seq<T>) {
    forall i, j | 0 <= i < j < |s| :: s[i] != s[j]
  }

  /** `order` lists every element of `s` exactly once: some order a hash map or a query may produce. */
  ghost predicate Enumerates<T>(order: seq<T>, s: set<T>) {
    && NoDuplicates(order)
    && (forall n | 0 <= n < |order| :: order[n] in s)
    && (forall x | x in s :: x in order)
  }

  lemma EnumerationPrefix<T>(order: seq<T>, s: set<T>)
    requires order != [] && Enumerates(order, s)
    ensures order[|order| - 1] in s
    ensures Enumerates(order[..|order| - 1], s - {order[|order| - 1]})
  {
    var n := |order| - 1;
    var init, last := order[..n], order[n];
    forall x | x in s - {last} ensures x in init {
      assert x in order;
      var i :| 0 <= i < |order| && order[i] == x;
      assert i < n;
      assert init[i] == x;
    }
  }

  lemma MultisetCancel<T>(x: T, m: multiset<T>, n: multiset<T>)
    requires multiset{x} + m == multiset{x} + n
    ensures m == n
  {
    forall y ensures m[y] == n[y] {
      assert (multiset{x} + m)[y] == (multiset{x} + n)[y];
    }
  }

  /** The sum of the values met along a list of keys. */
  function SumOver<K>(order: seq<K>, m: map<K, int>): int
    requires forall n | 0 <= n < |order| :: order[n] in m
  {
    if order == [] then 0 else SumOver(order[..|order| - 1], m) + m[order[|order| - 1]]
  }

  /** Summing along any enumeration of a set of keys gives the total over that set. */
  lemma {:induction false} EnumerationTotal<K>(order: seq<K>, s: set<K>, m: map<K, int>)
    requires Enumerates(order, s) && s <= m.Keys
    ensures SumOver(order, m) == Total(Restricted(m, s))
    decreases |order|
  {
    var inside := Restricted(m, s);
    if order == [] {
      assert s == {} by { assert forall x | x in s :: x in order; }
      assert inside == map[];
    } else {
      var last := order[|order| - 1];
      EnumerationPrefix(order, s);
      EnumerationTotal(order[..|order| - 1], s - {last}, m);
      assert Restricted(m, s - {last}) == inside - {last};
      TotalRemove(inside, last);
    }
  }
}
