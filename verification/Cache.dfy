/** The LRU cache with per-entry expiry, and its sharded form. */
module Cache {
  import opened Sums

  datatype Entry<V> = Entry(value: V, expiresAt: int)

  // ----- Recency order -----

  function Removed<K(==)>(order: seq<K>, key: K): seq<K> {
    if order == [] then []
    else if order[0] == key then Removed(order[1..], key)
    else [order[0]] + Removed(order[1..], key)
  }

  /** MoveToFront. */
  function Touched<K(==)>(order: seq<K>, key: K): seq<K> {
    [key] + Removed(order, key)
  }

  /** The order after Put: a known key moves to the front, a new one evicts the oldest when the cache is full. */
  function AfterPut<K(==)>(order: seq<K>, key: K, capacity: int): seq<K> {
    if key in order then Touched(order, key)
    else if |order| >= capacity && order != [] then [key] + order[..|order| - 1]
    else [key] + order
  }

  lemma {:induction false} RemovedMembers<K(!new)>(order: seq<K>, key: K)
    requires NoDuplicates(order)
    ensures NoDuplicates(Removed(order, key))
    ensures forall k :: k in Removed(order, key) <==> k in order && k != key
    ensures |Removed(order, key)| == |order| - if key in order then 1 else 0
    decreases |order|
  {
    if order != [] {
      var rest := order[1..];
      assert order == [order[0]] + rest;
      assert NoDuplicates(rest) by {
        forall i, j | 0 <= i < j < |rest| ensures rest[i] != rest[j] { assert order[i + 1] != order[j + 1]; }
      }
      assert order[0] !in rest by {
        forall i | 0 <= i < |rest| ensures rest[i] != order[0] { assert order[i + 1] != order[0]; }
      }
      RemovedMembers(rest, key);
      if order[0] != key {
        var r := [order[0]] + Removed(rest, key);
        assert NoDuplicates(r) by {
          forall i, j | 0 <= i < j < |r| ensures r[i] != r[j] {
            if i == 0 { assert r[j] in Removed(rest, key); }
          }
        }
      }
    }
  }

  lemma InitMembers<K(!new)>(order: seq<K>)
    requires NoDuplicates(order) && order != []
    ensures NoDuplicates(order[..|order| - 1])
    ensures forall k :: k in order[..|order| - 1] <==> k in order && k != order[|order| - 1]
  {
    var init, last := order[..|order| - 1], order[|order| - 1];
    assert order == init + [last];
    assert last !in init by {
      forall i | 0 <= i < |init| ensures init[i] != last { assert order[i] != order[|order| - 1]; }
    }
  }

  class LRU<K(==, !new), V(!new)> {
    const capacity: int
    const ttl: int
    var order: seq<K>
    var items: map<K, Entry<V>>
    var hits: nat
    var misses: nat

    /** The list holds each cached key once, newest first, and never outgrows the capacity. */
    ghost predicate Valid()
      reads this
    {
      && NoDuplicates(order)
      && (forall k :: k in order <==> k in items)
      && |order| <= Max(capacity, 1)
    }

    ghost function Peek(key: K): Option<V>
      reads this
    {
      if key in items then Some(items[key].value) else None
    }

    constructor (capacity: int, ttl: int)
      ensures Valid() && order == [] && items == map[] && this.capacity == capacity && this.ttl == ttl
    {
      this.capacity, this.ttl := capacity, ttl;
      order, items, hits, misses := [], map[], 0, 0;
    }

    method Get(key: K, now: int) returns (r: Option<V>)
      requires Valid()
      modifies this
      ensures Valid()
      ensures key !in old(items) || now > old(items)[key].expiresAt ==>
        && r == None && order == Removed(old(order), key) && items == old(items) - {key}
        && misses == old(misses) + 1 && hits == old(hits)
      ensures key in old(items) && now <= old(items)[key].expiresAt ==>
        && r == Some(old(items)[key].value) && order == Touched(old(order), key) && items == old(items)
        && hits == old(hits) + 1
        && misses == old(misses)
    {
      RemovedMembers(order, key);
      if key !in items {
        AbsentRemoved(order, key);
        misses := misses + 1;
        return None;
      }
      var e := items[key];
      if now > e.expiresAt {
        order, items := Removed(order, key), items - {key};
        misses := misses + 1;
        return None;
      }
      order := Touched(order, key);
      assert NoDuplicates(order);
      hits := hits + 1;
      return Some(e.value);
    }

    method Put(key: K, value: V, now: int)
      requires Valid()
      modifies this`order, this`items
      ensures Valid()
      ensures order == AfterPut(old(order), key, capacity)
      ensures key in items && items[key] == Entry(value, now + ttl)
      ensures forall k | k in items && k != key :: k in old(items) && items[k] == old(items)[k]
    {
      if key in items {
        RemovedMembers(order, key);
        order := Touched(order, key);
        assert NoDuplicates(order);
        items := items[key := Entry(value, now + ttl)];
        return;
      }
      assert key !in order;
      if |order| >= capacity && |order| > 0 {
        InitMembers(order);
        var oldest := order[|order| - 1];
        assert oldest in order;
        order, items := order[..|order| - 1], items - {oldest};
      }
      order := [key] + order;
      items := items[key := Entry(value, now + ttl)];
    }
  }

  lemma {:induction false} AbsentRemoved<K(!new)>(order: seq<K>, key: K)
    requires key !in order
    ensures Removed(order, key) == order
    decreases |order|
  {
    if order != [] {
      assert order == [order[0]] + order[1..];
      AbsentRemoved(order[1..], key);
    }
  }

  // ----- What the cache holds -----

  function Take<K>(s: seq<K>, n: nat): seq<K> {
    if |s| <= n then s else s[..n]
  }

  /** All keys ever used, most recently used first. */
  function Recent<K(==)>(uses: seq<K>): seq<K> {
    if uses == [] then [] else Touched(Recent(uses[..|uses| - 1]), uses[|uses| - 1])
  }

  /** The order of a cache in which each use puts a key, or hits one that is present. */
  function Held<K(==)>(uses: seq<K>, capacity: nat): seq<K> {
    if uses == [] then [] else AfterPut(Held(uses[..|uses| - 1], capacity), uses[|uses| - 1], capacity)
  }

  lemma DistinctTail<K(!new)>(r: seq<K>)
    requires NoDuplicates(r) && r != []
    ensures NoDuplicates(r[1..]) && r[0] !in r[1..]
  {
    forall i, j | 0 <= i < j < |r[1..]| ensures r[1..][i] != r[1..][j] { assert r[i + 1] != r[j + 1]; }
    forall i | 0 <= i < |r[1..]| ensures r[1..][i] != r[0] { assert r[i + 1] != r[0]; }
  }

  lemma PrefixParts<K>(r: seq<K>, n: nat)
    requires 0 < n <= |r|
    ensures r[..n] == [r[0]] + r[1..][..n - 1] && r[..n][0] == r[0] && r[..n][1..] == r[1..][..n - 1]
  {
  }

  lemma HeadTaken<K(!new)>(r: seq<K>, n: nat)
    requires NoDuplicates(r) && 0 < n <= |r|
    ensures Removed(r[..n], r[0]) == Take(Removed(r, r[0]), n - 1)
  {
    DistinctTail(r);
    PrefixParts(r, n);
    AbsentRemoved(r[1..], r[0]);
    AbsentRemoved(r[1..][..n - 1], r[0]);
  }

  lemma {:induction false} RemovedTake<K(!new)>(r: seq<K>, key: K, n: nat)
    requires NoDuplicates(r) && n <= |r|
    ensures key !in r[..n] ==> Take(Removed(r, key), n) == if |Removed(r, key)| < n then Removed(r, key) else r[..n]
    ensures key in r[..n] ==> n > 0 && Removed(r[..n], key) == Take(Removed(r, key), n - 1)
    decreases |r|
  {
    if n == 0 {
      assert r[..0] == [];
    } else {
      PrefixParts(r, n);
      DistinctTail(r);
      if r[0] == key {
        HeadTaken(r, n);
      } else {
        RemovedTake(r[1..], key, n - 1);
      }
    }
  }

  lemma {:induction false} RecentIsDistinct<K(!new)>(uses: seq<K>)
    ensures NoDuplicates(Recent(uses))
    decreases |uses|
  {
    if uses != [] {
      RecentIsDistinct(uses[..|uses| - 1]);
      RemovedMembers(Recent(uses[..|uses| - 1]), uses[|uses| - 1]);
    }
  }

  lemma UseKeepsPrefix<K(!new)>(r: seq<K>, key: K, capacity: nat)
    requires NoDuplicates(r) && capacity > 0
    ensures AfterPut(Take(r, capacity), key, capacity) == Take(Touched(r, key), capacity)
  {
    RemovedMembers(r, key);
    if |r| <= capacity {
      if key !in r { AbsentRemoved(r, key); }
    } else {
      RemovedTake(r, key, capacity);
      RemovedTake(r, key, capacity - 1);
      if key !in r[..capacity] {
        assert key !in r[..capacity - 1] by { assert forall i | 0 <= i < capacity - 1 :: r[..capacity][i] == r[i]; }
        assert r[..capacity][..capacity - 1] == r[..capacity - 1];
      }
    }
  }

  /**
   * As long as no entry expires, a cache of capacity n holds exactly the n most recently used keys, in
   * order of use.
   */
  lemma {:induction false} HoldsMostRecent<K(!new)>(uses: seq<K>, capacity: nat)
    requires capacity > 0
    ensures Held(uses, capacity) == Take(Recent(uses), capacity)
    decreases |uses|
  {
    if uses != [] {
      HoldsMostRecent(uses[..|uses| - 1], capacity);
      RecentIsDistinct(uses[..|uses| - 1]);
      UseKeepsPrefix(Recent(uses[..|uses| - 1]), uses[|uses| - 1], capacity);
    }
  }

  // ----- Shards -----

  /** One byte of FNV-32a, wrapping at 32 bits. */
  function FnvStep(h: bv32, c: char): bv32 {
    (h ^ (c as int as bv32)) * 16777619
  }

  function FoldBytes(step: (bv32, char) -> bv32, s: string): bv32 {
    if s == "" then 2166136261 else step(FoldBytes(step, s[..|s| - 1]), s[|s| - 1])
  }

  function Fnv32a(s: string): bv32 {
    FoldBytes(FnvStep, s)
  }

  method HashBytes(step: (bv32, char) -> bv32, s: string) returns (h: bv32)
    ensures h == FoldBytes(step, s)
  {
    h := 2166136261;
    for j := 0 to |s|
      invariant h == FoldBytes(step, s[..j])
    {
      assert s[..j + 1][..j] == s[..j];
      h := step(h, s[j]);
    }
    assert s[..|s|] == s;
  }

  function ShardIndex(s: string, count: nat): nat
    requires count > 0
  {
    (Fnv32a(s) as int) % count
  }

  class ShardedLRU<V(!new)> {
    const shards: seq<LRU<string, V>>

    /** Distinct shards, and every key only in the shard its hash selects. */
    ghost predicate Valid()
      reads this, shards
    {
      && |shards| > 0
      && (forall i, j | 0 <= i < j < |shards| :: shards[i] != shards[j])
      && (forall i | 0 <= i < |shards| :: shards[i].Valid())
      && (forall i, k | 0 <= i < |shards| && k in shards[i].items :: ShardIndex(k, |shards|) == i)
    }

    ghost function Peek(key: string): Option<V>
      requires |shards| > 0
      reads this, shards
    {
      shards[ShardIndex(key, |shards|)].Peek(key)
    }

    /** Capacity is divided evenly; each shard holds at least one entry. */
    constructor (totalCapacity: int, ttl: int, shardCount: int)
      ensures Valid() && |shards| == (if shardCount <= 0 then 16 else shardCount)
      ensures forall key :: Peek(key) == None
      ensures forall i | 0 <= i < |shards| :: fresh(shards[i])
      ensures forall i | 0 <= i < |shards| :: shards[i].capacity == Max(Truncated(totalCapacity, |shards|), 1)
    {
      var count := if shardCount <= 0 then 16 else shardCount;
      var perShard := Truncated(totalCapacity, count);
      if perShard < 1 { perShard := 1; }
      var made: seq<LRU<string, V>> := [];
      while |made| < count
        invariant |made| <= count
        invariant forall i, j | 0 <= i < j < |made| :: made[i] != made[j]
        invariant forall i | 0 <= i < |made| ::
          fresh(made[i]) && made[i].Valid() && made[i].items == map[] && made[i].capacity == perShard
      {
        var shard := new LRU<string, V>(perShard, ttl);
        made := made + [shard];
      }
      shards := made;
    }

    method ShardOf(key: string) returns (i: nat)
      requires |shards| > 0
      ensures i == ShardIndex(key, |shards|) && i < |shards|
    {
      var h := HashBytes(FnvStep, key);
      i := (h as int) % |shards|;
    }

    method Get(key: string, now: int) returns (r: Option<V>)
      requires Valid()
      modifies shards
      ensures Valid()
      ensures r.Some? ==> old(Peek(key)) == r && Peek(key) == r
      ensures forall k :: Peek(k) == old(Peek(k)) || (k == key && Peek(k) == None)
    {
      var i := ShardOf(key);
      r := shards[i].Get(key, now);
    }

    method Put(key: string, value: V, now: int)
      requires Valid()
      modifies shards
      ensures Valid()
      ensures Peek(key) == Some(value)
      ensures forall k | k != key :: Peek(k) == old(Peek(k)) || Peek(k) == None
    {
      var i := ShardOf(key);
      shards[i].Put(key, value, now);
    }
  }

  /** Go's integer division, which truncates toward zero. */
  function Truncated(a: int, b: int): int
    requires b > 0
  {
    if a >= 0 then a / b else -((-a) / b)
  }

  /** A published test vector of FNV-32a. */
  lemma FnvVector()
    ensures Fnv32a("a") == 0xE40C292C
  {
    assert "a"[..0] == "";
  }
}
