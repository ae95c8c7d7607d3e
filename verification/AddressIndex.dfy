/** The tiered index of watched addresses: bloom filter, LRU cache, database. */
module AddressIndex {
  import opened Sums
  import opened Paging
  import opened Bloom
  import opened Cache

  /** Chain and network names contain no colon. */
  type Name = s: string | ':' !in s

  datatype Place = Place(chain: Name, network: Name)

  datatype Key = Key(place: Place, address: string)

  datatype Watched = Watched(owner: string, active: bool)

  type Registry = map<Key, Watched>

  /** lruKey. */
  function KeyText(key: Key): string {
    key.place.chain + ":" + (key.place.network + ":" + key.address)
  }

  lemma FirstColon(a: Name, x: string)
    ensures (a + ":" + x)[|a|] == ':' && forall i | 0 <= i < |a| :: (a + ":" + x)[i] != ':'
    ensures (a + ":" + x)[..|a|] == a && (a + ":" + x)[|a| + 1..] == x
  {
  }

  lemma SplitAtColon(a: Name, x: string, b: Name, y: string)
    requires a + ":" + x == b + ":" + y
    ensures a == b && x == y
  {
    FirstColon(a, x);
    FirstColon(b, y);
  }

  /** Two keys never share a cache entry. */
  lemma KeyTextInjective(a: Key, b: Key)
    requires KeyText(a) == KeyText(b)
    ensures a == b
  {
    assert a.place.chain + ":" + (a.place.network + ":" + a.address) ==
      b.place.chain + ":" + (b.place.network + ":" + b.address);
    SplitAtColon(a.place.chain, a.place.network + ":" + a.address, b.place.chain, b.place.network + ":" + b.address);
    SplitAtColon(a.place.network, a.address, b.place.network, b.address);
  }

  /** FindByAddress: active or not. */
  function Find(db: Registry, key: Key): Option<Watched> {
    if key in db then Some(db[key]) else None
  }

  predicate IsActive(db: Registry, key: Key) {
    key in db && db[key].active
  }

  /** GetActive. */
  function ActiveAt(db: Registry, place: Place): set<Key> {
    set key | key in db && key.place == place && db[key].active
  }

  /** What the cache tells about a key is what the database holds. */
  ghost predicate Truthful(db: Registry, key: Key, cached: Option<Option<Watched>>) {
    cached.Some? ==> cached.value == Find(db, key)
  }

  datatype Operation =
    | Reloading(place: Place, m: nat, k: nat, now: int, fails: bool)
    | LookingUp(key: Key, now: int, fails: bool)
    | Asking(key: Key, now: int, fails: bool)

  class TieredIndex {
    const db: Registry
    const hash: DoubleHash
    const lru: ShardedLRU<Option<Watched>>
    var blooms: map<Place, BloomFilter>

    ghost predicate CacheTruthful()
      reads this, lru, lru.shards
    {
      lru.Valid() && forall key :: Truthful(db, key, lru.Peek(KeyText(key)))
    }

    ghost predicate FiltersComplete()
      reads this, blooms.Values, set b | b in blooms.Values :: b.bits
    {
      forall p | p in blooms :: blooms[p].Valid() && Knows(blooms[p], p)
    }

    /** The filter has been given every active address of the place. */
    ghost predicate Knows(bf: BloomFilter, p: Place)
      reads bf
    {
      forall key | key in ActiveAt(db, p) :: KeyText(key) in bf.added
    }

    /** The cache is truthful, and every filter knows all active addresses of its place. */
    ghost predicate Valid()
      reads this, lru, lru.shards, blooms.Values, set b | b in blooms.Values :: b.bits
    {
      CacheTruthful() && FiltersComplete()
    }

    constructor (db: Registry, hash: DoubleHash, capacity: int, ttl: int)
      ensures Valid() && this.db == db
    {
      this.db, this.hash, blooms := db, hash, map[];
      lru := new ShardedLRU<Option<Watched>>(capacity, ttl, 16);
    }

    /** Tier 1. A missing filter rejects nothing. */
    method Rejected(key: Key) returns (r: bool)
      requires FiltersComplete()
      ensures r ==> !IsActive(db, key)
    {
      if key.place !in blooms { return false; }
      var may := blooms[key.place].MayContain(KeyText(key));
      assert IsActive(db, key) ==> key in ActiveAt(db, key.place);
      return !may;
    }

    /** Store what the database holds for a key. */
    method Remember(key: Key, now: int)
      requires CacheTruthful()
      modifies lru.shards
      ensures CacheTruthful()
    {
      lru.Put(KeyText(key), Find(db, key), now);
      forall k ensures Truthful(db, k, lru.Peek(KeyText(k))) {
        if KeyText(k) == KeyText(key) { KeyTextInjective(k, key); }
      }
    }

    /** Tiers 2 and 3. None stands for a database error. */
    method Resolve(key: Key, now: int, fails: bool) returns (r: Option<Option<Watched>>)
      requires CacheTruthful()
      modifies lru.shards
      ensures CacheTruthful()
      ensures r == None ==> fails
      ensures r.Some? ==> r.value == Find(db, key)
    {
      r := lru.Get(KeyText(key), now);
      if r.Some? { return; }
      if fails { return None; }
      Remember(key, now);
      return Some(Find(db, key));
    }

    /** Lookup: the database row of an active address, nothing for an unregistered one. */
    method Lookup(key: Key, now: int, fails: bool) returns (r: Option<Watched>)
      requires Valid()
      modifies lru.shards
      ensures Valid()
      ensures r.Some? ==> r == Find(db, key)
      ensures IsActive(db, key) && !fails ==> r == Find(db, key)
    {
      var rejected := Rejected(key);
      if rejected { return None; }
      var found := Resolve(key, now, fails);
      if found.None? { return None; }
      return found.value;
    }

    /** Contains: a false answer is definitive; without database errors a true one means registered. */
    method Contains(key: Key, now: int, fails: bool) returns (r: bool)
      requires Valid()
      modifies lru.shards
      ensures Valid()
      ensures !r ==> !IsActive(db, key)
      ensures r && !fails ==> key in db
    {
      var rejected := Rejected(key);
      if rejected { return false; }
      var found := Resolve(key, now, fails);
      if found.None? { return true; }
      return found.value.Some?;
    }

    method Warm(bf: BloomFilter, key: Key, now: int)
      requires CacheTruthful() && bf.Valid()
      modifies bf`added, bf.bits, lru.shards
      ensures CacheTruthful() && bf.Valid() && bf.added == old(bf.added) + {KeyText(key)}
    {
      bf.Add(KeyText(key));
      assert CacheTruthful();
      Remember(key, now);
    }

    /** The loop of Reload: every active address goes into the new filter and into the cache. */
    method Fill(place: Place, m: nat, k: nat, now: int) returns (bf: BloomFilter)
      requires CacheTruthful() && m > 0
      modifies lru.shards
      ensures CacheTruthful() && fresh(bf) && fresh(bf.bits) && bf.Valid() && Knows(bf, place)
    {
      var addresses := Enumerate(ActiveAt(db, place));
      bf := new BloomFilter(hash, m, k);
      for i := 0 to |addresses|
        invariant CacheTruthful()
        invariant bf.Valid() && fresh(bf) && fresh(bf.bits)
        invariant forall j | 0 <= j < i :: KeyText(addresses[j]) in bf.added
      {
        Warm(bf, addresses[i], now);
      }
      forall key | key in ActiveAt(db, place) ensures KeyText(key) in bf.added { assert key in addresses; }
    }

    /** Reload: fill a new filter and warm the cache, then swap the filter in. Other places keep theirs. */
    method Reload(place: Place, m: nat, k: nat, now: int, fails: bool) returns (ok: bool)
      requires Valid() && m > 0
      modifies this`blooms, lru.shards
      ensures Valid() && ok == !fails
      ensures forall p | p in old(blooms) && p != place :: p in blooms && blooms[p] == old(blooms)[p]
      ensures ok ==> place in blooms
    {
      if fails { return false; }
      var bf := Fill(place, m, k, now);
      assert FiltersComplete();
      blooms := blooms[place := bf];
      return true;
    }

    /** Any sequence of operations, with any clock readings and database errors, leaves the answers right. */
    method Serve(operations: seq<Operation>, key: Key, now: int) returns (r: Option<Watched>, watched: bool)
      requires Valid() && forall op | op in operations && op.Reloading? :: op.m > 0
      modifies this`blooms, lru.shards
      ensures Valid()
      ensures IsActive(db, key) ==> r == Find(db, key) && watched
      ensures key !in db ==> r == None && !watched
    {
      for i := 0 to |operations|
        invariant Valid()
      {
        assert operations[i] in operations;
        match operations[i] {
          case Reloading(place, m, k, at, fails) =>
            var _ := Reload(place, m, k, at, fails);
          case LookingUp(other, at, fails) =>
            var _ := Lookup(other, at, fails);
          case Asking(other, at, fails) =>
            var _ := Contains(other, at, fails);
        }
      }
      r := Lookup(key, now, false);
      watched := Contains(key, now, false);
    }
  }
}
