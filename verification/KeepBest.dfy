/** Deduplication by key that keeps the best element, and sorting, as the canonicalizers use them. */
module KeepBest {

  /** Among elements of one key `better` is a strict order: transitive and never both ways. */
  ghost predicate Ordered<K(!new), T(!new)>(xs: seq<T>, key: T -> K, better: (T, T) -> bool) {
    && (forall x, y | x in xs && y in xs && key(x) == key(y) && better(x, y) :: !better(y, x))
    && (forall x, y, z | x in xs && y in xs && z in xs && key(x) == key(y) == key(z) && better(x, y) && better(y, z) ::
          better(x, z))
  }

  /** `better(x, y)` says that `y` replaces `x`. Each key keeps an element that no element of the list replaces. */
  ghost predicate Keeps<K(!new), T(!new)>(m: map<K, T>, xs: seq<T>, key: T -> K, better: (T, T) -> bool) {
    && (forall k | k in m :: m[k] in xs && key(m[k]) == k)
    && (forall x | x in xs :: key(x) in m && !better(m[key(x)], x))
  }

  /** One iteration of the deduplicating loop. */
  lemma KeepsExtend<K(!new), T(!new)>(m: map<K, T>, xs: seq<T>, x: T, key: T -> K, better: (T, T) -> bool)
    requires Keeps(m, xs, key, better) && Ordered(xs + [x], key, better)
    ensures Keeps(if key(x) !in m || better(m[key(x)], x) then m[key(x) := x] else m, xs + [x], key, better)
  {
    var m' := if key(x) !in m || better(m[key(x)], x) then m[key(x) := x] else m;
    assert x in xs + [x] && forall y | y in xs :: y in xs + [x];
    forall y | y in xs + [x] ensures key(y) in m' && !better(m'[key(y)], y) {
      if y in xs && key(y) == key(x) { assert !better(m[key(y)], y); }
    }
  }

  /** Two lists with the same elements keep elements that do not replace each other. */
  lemma KeptAlike<K(!new), T(!new)>(
    m1: map<K, T>, xs1: seq<T>, m2: map<K, T>, xs2: seq<T>, key: T -> K, better: (T, T) -> bool, k: K)
    requires Keeps(m1, xs1, key, better) && Keeps(m2, xs2, key, better)
    requires forall x :: x in xs1 <==> x in xs2
    requires k in m1
    ensures k in m2 && !better(m1[k], m2[k]) && !better(m2[k], m1[k])
  {
  }

  lemma KeptKeys<K(!new), T(!new)>(
    m1: map<K, T>, xs1: seq<T>, m2: map<K, T>, xs2: seq<T>, key: T -> K, better: (T, T) -> bool)
    requires Keeps(m1, xs1, key, better) && Keeps(m2, xs2, key, better)
    requires forall x :: x in xs1 <==> x in xs2
    ensures m1.Keys == m2.Keys
  {
    forall k ensures k in m1 <==> k in m2 {
      if k in m1 { KeptAlike(m1, xs1, m2, xs2, key, better, k); }
      if k in m2 { KeptAlike(m2, xs2, m1, xs1, key, better, k); }
    }
  }

  // ----- Sorting -----

  ghost predicate StrictOrder<T(!new)>(lt: (T, T) -> bool) {
    && (forall x :: !lt(x, x))
    && (forall x, y, z | lt(x, y) && lt(y, z) :: lt(x, z))
  }

  ghost predicate Comparable<T>(s: set<T>, lt: (T, T) -> bool) {
    forall x, y | x in s && y in s :: x == y || lt(x, y) || lt(y, x)
  }

  ghost predicate Sorted<T>(s: seq<T>, lt: (T, T) -> bool) {
    forall i, j | 0 <= i < j < |s| :: lt(s[i], s[j])
  }

  lemma {:induction false} LeastOf<T(!new)>(s: set<T>, lt: (T, T) -> bool)
    requires s != {} && StrictOrder(lt) && Comparable(s, lt)
    ensures exists m :: m in s && forall x | x in s :: x == m || lt(m, x)
    decreases |s|
  {
    var y :| y in s;
    var rest := s - {y};
    if rest == {} {
      assert s == {y};
    } else {
      LeastOf(rest, lt);
      var m :| m in rest && forall x | x in rest :: x == m || lt(m, x);
      var least := if lt(m, y) then m else y;
      assert least in s;
      forall x | x in s ensures x == least || lt(least, x) { assert x == y || x in rest; }
    }
  }

  /** The elements of a set in ascending order. */
  method SortSet<T(!new, ==)>(s: set<T>, lt: (T, T) -> bool) returns (r: seq<T>)
    requires StrictOrder(lt) && Comparable(s, lt)
    ensures Sorted(r, lt) && forall x :: x in r <==> x in s
  {
    r := [];
    var rest := s;
    while rest != {}
      invariant rest <= s && Sorted(r, lt)
      invariant forall x :: x in s <==> x in r || x in rest
      invariant forall i | 0 <= i < |r| :: forall x | x in rest :: lt(r[i], x)
      decreases rest
    {
      LeastOf(rest, lt);
      var m :| m in rest && forall x | x in rest :: x == m || lt(m, x);
      r := r + [m];
      rest := rest - {m};
    }
  }

  lemma {:induction false} SortedExists<T(!new)>(s: set<T>, lt: (T, T) -> bool)
    requires StrictOrder(lt) && Comparable(s, lt)
    ensures exists r: seq<T> :: Sorted(r, lt) && forall x :: x in r <==> x in s
    decreases |s|
  {
    if s == {} {
      var r: seq<T> := [];
      assert Sorted(r, lt) && forall x :: x in r <==> x in s;
    } else {
      LeastOf(s, lt);
      var m :| m in s && forall x | x in s :: x == m || lt(m, x);
      SortedExists(s - {m}, lt);
      var r: seq<T> :| Sorted(r, lt) && forall x :: x in r <==> x in s - {m};
      var r' := [m] + r;
      assert forall i | 0 <= i < |r| :: r[i] in s - {m};
      assert Sorted(r', lt) && forall x :: x in r' <==> x in s;
    }
  }

  lemma SortedTail<T(!new)>(a: seq<T>, lt: (T, T) -> bool, x: T)
    requires StrictOrder(lt) && Sorted(a, lt) && a != []
    ensures x in a[1..] <==> x in a && x != a[0]
  {
    if x in a[1..] {
      var i :| 0 <= i < |a[1..]| && a[1..][i] == x;
      assert lt(a[0], a[i + 1]);
    }
  }

  /** A set has one ascending order. */
  lemma {:induction false} SortedUnique<T(!new)>(a: seq<T>, b: seq<T>, lt: (T, T) -> bool)
    requires StrictOrder(lt) && Sorted(a, lt) && Sorted(b, lt)
    requires forall x :: x in a <==> x in b
    ensures a == b
    decreases |a|
  {
    assert forall i | 0 <= i < |a| :: a[i] in b;
    assert forall i | 0 <= i < |b| :: b[i] in a;
    if a != [] {
      assert a[0] in b && b[0] in a;
      SortedTail(a, lt, b[0]);
      SortedTail(b, lt, a[0]);
      SameHead(a, b, lt);
      forall x ensures x in a[1..] <==> x in b[1..] {
        SortedTail(a, lt, x);
        SortedTail(b, lt, x);
      }
      SortedUnique(a[1..], b[1..], lt);
      assert a == [a[0]] + a[1..] && b == [b[0]] + b[1..];
    }
  }

  lemma HeadIsLeast<T>(a: seq<T>, lt: (T, T) -> bool, i: nat)
    requires Sorted(a, lt) && i < |a|
    ensures a[0] == a[i] || lt(a[0], a[i])
  {
  }

  lemma SameHead<T(!new)>(a: seq<T>, b: seq<T>, lt: (T, T) -> bool)
    requires StrictOrder(lt) && Sorted(a, lt) && Sorted(b, lt) && a != [] && b != []
    requires a[0] in b && b[0] in a
    ensures a[0] == b[0]
  {
    var i :| 0 <= i < |b| && b[i] == a[0];
    var j :| 0 <= j < |a| && a[j] == b[0];
    HeadIsLeast(b, lt, i);
    HeadIsLeast(a, lt, j);
  }

  // ----- Filtering -----

  function Where<T>(s: seq<T>, keep: T -> bool): seq<T> {
    if s == [] then [] else Where(s[..|s| - 1], keep) + if keep(s[|s| - 1]) then [s[|s| - 1]] else []
  }

  lemma {:induction false} WhereMembers<T(!new)>(s: seq<T>, keep: T -> bool, x: T)
    ensures x in Where(s, keep) <==> x in s && keep(x)
    decreases |s|
  {
    if s != [] {
      WhereMembers(s[..|s| - 1], keep, x);
      assert s == s[..|s| - 1] + [s[|s| - 1]];
    }
  }

  lemma {:induction false} WhereSorted<T(!new)>(s: seq<T>, keep: T -> bool, lt: (T, T) -> bool)
    requires Sorted(s, lt)
    ensures Sorted(Where(s, keep), lt)
    decreases |s|
  {
    if s != [] {
      var init, last := s[..|s| - 1], s[|s| - 1];
      WhereSorted(init, keep, lt);
      forall i | 0 <= i < |Where(init, keep)| ensures lt(Where(init, keep)[i], last) {
        WhereMembers(init, keep, Where(init, keep)[i]);
        assert Where(init, keep)[i] in init;
        var j :| 0 <= j < |init| && init[j] == Where(init, keep)[i];
        assert lt(s[j], s[|s| - 1]);
      }
    }
  }

  // ----- Mapping -----

  function Mapped<A, B>(f: A -> B, s: seq<A>): (r: seq<B>)
    ensures |r| == |s| && forall i | 0 <= i < |s| :: r[i] == f(s[i])
  {
    if s == [] then [] else Mapped(f, s[..|s| - 1]) + [f(s[|s| - 1])]
  }

  lemma MappedExtend<A, B>(f: A -> B, s: seq<A>, i: nat)
    requires i < |s|
    ensures Mapped(f, s[..i + 1]) == Mapped(f, s[..i]) + [f(s[i])]
  {
    assert s[..i + 1][..i] == s[..i];
  }

  lemma MappedMember<A(!new), B(!new)>(f: A -> B, s: seq<A>, x: B)
    ensures x in Mapped(f, s) <==> exists a | a in s :: f(a) == x
  {
    if x in Mapped(f, s) {
      var i :| 0 <= i < |s| && Mapped(f, s)[i] == x;
      assert s[i] in s && f(s[i]) == x;
    }
    if a :| a in s && f(a) == x {
      var i :| 0 <= i < |s| && s[i] == a;
      assert Mapped(f, s)[i] == x;
    }
  }
}
