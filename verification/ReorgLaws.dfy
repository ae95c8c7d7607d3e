/** What the detector's checks establish about the chain, and the repair loop of checks and purges. */
module ReorgLaws {
  import opened Sums
  import opened Ledger
  import opened BalanceStore
  import opened LedgerSteps
  import opened PurgeForms
  import opened Paging
  import opened Database
  import opened ReorgDetector

  /** The canonical chain, one header per block number. */
  type Chain = int -> Header

  ghost predicate WellFormedAt(chain: Chain, n: int) {
    chain(n).parent == "" || chain(n).parent == chain(n - 1).hash
  }

  ghost predicate WellFormed(chain: Chain) {
    forall n :: WellFormedAt(chain, n)
  }

  /** The node may fail but does not lie. */
  ghost predicate Truthful(rpc: Rpc, chain: Chain) {
    forall n | rpc(n).Some? :: rpc(n).value == chain(n)
  }

  function Node(chain: Chain): Rpc {
    n => Some(chain(n))
  }

  predicate HashAgrees(chain: Chain, b: IndexedBlock) {
    b.hash == chain(b.number).hash
  }

  predicate Agrees(chain: Chain, b: IndexedBlock) {
    HashAgrees(chain, b) && (b.parent == "" || b.parent == chain(b.number - 1).hash)
  }

  ghost predicate CacheSound(cache: map<int, string>, chain: Chain) {
    forall n | n in cache :: cache[n] == chain(n).hash
  }

  // ----- First offenders -----

  lemma {:induction false} FirstUnlinkedSpec(list: seq<IndexedBlock>, i: nat)
    requires i <= |list|
    ensures FirstUnlinked(list, i).None? <==> forall j | i <= j < |list| :: Linked(list, list[j])
    ensures FirstUnlinked(list, i).Some? ==>
      FirstUnlinked(list, i).value in list && !Linked(list, FirstUnlinked(list, i).value)
    decreases |list| - i
  {
    if i < |list| { FirstUnlinkedSpec(list, i + 1); }
  }

  predicate Offends(list: seq<IndexedBlock>, rpc: Rpc, cache: map<int, string>, j: nat)
    requires j < |list|
  {
    (j == 0 || !Cached(cache, list[j])) && Mismatch(rpc, list[j])
  }

  lemma {:induction false} FirstMismatchSpec(list: seq<IndexedBlock>, rpc: Rpc, cache: map<int, string>, i: nat)
    requires i <= |list|
    ensures FirstMismatch(list, rpc, cache, i).None? <==> forall j | i <= j < |list| :: !Offends(list, rpc, cache, j)
    ensures FirstMismatch(list, rpc, cache, i).Some? ==>
      FirstMismatch(list, rpc, cache, i).value in list && Mismatch(rpc, FirstMismatch(list, rpc, cache, i).value)
    decreases |list| - i
  {
    if i < |list| {
      FirstMismatchSpec(list, rpc, cache, i + 1);
      assert Offends(list, rpc, cache, i) <==>
        FirstMismatch(list, rpc, cache, i) == Some(list[i]) && Offends(list, rpc, cache, i);
    }
  }

  lemma {:induction false} HashAtFound(list: seq<IndexedBlock>, n: int)
    ensures HashAt(list, n).Some? ==> exists b | b in list :: b.number == n && b.hash == HashAt(list, n).value
    decreases |list|
  {
    if list != [] && list[|list| - 1].number != n {
      HashAtFound(list[..|list| - 1], n);
      assert forall b | b in list[..|list| - 1] :: b in list;
    } else if list != [] {
      assert list[|list| - 1] in list;
    }
  }

  // ----- Soundness of the cache -----

  /**
   * Whatever the node fails to answer, and whatever is re-indexed in between, the cache holds canonical
   * hashes only.
   */
  lemma {:induction false} CacheStaysSound(
    list: seq<IndexedBlock>, rpc: Rpc, cache: map<int, string>, chain: Chain, n: nat)
    requires n <= |list| && Truthful(rpc, chain) && CacheSound(cache, chain)
    ensures CacheSound(Verified(list, rpc, cache, n), chain)
    decreases n
  {
    if n > 0 { CacheStaysSound(list, rpc, cache, chain, n - 1); }
  }

  lemma RememberedSound(list: seq<IndexedBlock>, rpc: Rpc, cache: map<int, string>, chain: Chain)
    requires Truthful(rpc, chain) && CacheSound(cache, chain)
    ensures CacheSound(Remembered(list, rpc, cache), chain)
  {
    CacheStaysSound(list, rpc, cache, chain, |list|);
  }

  // ----- Quiet checks -----

  /** A quiet check, cached or not, proves every examined hash. */
  lemma QuietMeansAgreed(list: seq<IndexedBlock>, cache: map<int, string>, chain: Chain)
    requires CacheSound(cache, chain) && Emission(list, Node(chain), cache).None?
    ensures forall b | b in list :: HashAgrees(chain, b)
  {
    FirstMismatchSpec(list, Node(chain), cache, 0);
    forall b | b in list ensures HashAgrees(chain, b) {
      var j :| 0 <= j < |list| && list[j] == b;
      assert !Offends(list, Node(chain), cache, j);
    }
  }

  /**
   * Whatever is cached, a check is quiet exactly when every examined block is linked and each matches
   * what the node answers, or is cached and not the first of the list.
   */
  lemma QuietIsExact(list: seq<IndexedBlock>, rpc: Rpc, cache: map<int, string>)
    ensures Emission(list, rpc, cache).None? <==>
            forall j | 0 <= j < |list| ::
              Linked(list, list[j]) && (!Mismatch(rpc, list[j]) || (j > 0 && Cached(cache, list[j])))
  {
    FirstUnlinkedSpec(list, 0);
    FirstMismatchSpec(list, rpc, cache, 0);
    forall j | 0 <= j < |list|
      ensures Offends(list, rpc, cache, j) <==> Mismatch(rpc, list[j]) && (j == 0 || !Cached(cache, list[j]))
    {
    }
  }

  /** The cached hashes a check relies on are still canonical. */
  ghost predicate ReliedOnIsCanonical(list: seq<IndexedBlock>, cache: map<int, string>, chain: Chain) {
    forall j | 0 < j < |list| && Cached(cache, list[j]) :: HashAgrees(chain, list[j])
  }

  /** A quiet check proves every examined hash exactly when no cached hash it relied on has gone stale. */
  lemma QuietProvesExactly(list: seq<IndexedBlock>, cache: map<int, string>, chain: Chain)
    requires Emission(list, Node(chain), cache).None?
    ensures (forall b | b in list :: HashAgrees(chain, b)) <==> ReliedOnIsCanonical(list, cache, chain)
  {
    QuietIsExact(list, Node(chain), cache);
    if ReliedOnIsCanonical(list, cache, chain) {
      forall b | b in list ensures HashAgrees(chain, b) {
        var j :| 0 <= j < |list| && list[j] == b;
        assert !Mismatch(Node(chain), list[j]) || (j > 0 && Cached(cache, list[j]));
      }
    }
  }

  /** The block asked for first is the newest one exactly when the list is cut, or has one entry. */
  lemma TipIsFirstExactly(list: seq<IndexedBlock>, depth: nat)
    requires list != [] && depth > 0 && Ascending(Numbers(list))
    ensures Examined(list, depth) != []
    ensures Examined(list, depth)[0] == list[|list| - 1] <==> |list| > depth || |list| == 1
  {
    if 1 < |list| <= depth { assert Numbers(list)[0] < Numbers(list)[|list| - 1]; }
  }

  lemma {:induction false} VerifiedKeeps(
    list: seq<IndexedBlock>, rpc: Rpc, cache: map<int, string>, j: nat, n: nat)
    requires 0 < j < n <= |list| && Ascending(Numbers(list)) && Cached(cache, list[j])
    ensures Cached(Verified(list, rpc, cache, n), list[j])
    decreases n
  {
    if j < n - 1 {
      VerifiedKeeps(list, rpc, cache, j, n - 1);
      assert Numbers(list)[j] < Numbers(list)[n - 1];
    }
  }

  /** A cached block that is not first stays cached through every quiet check, whatever the node answers. */
  lemma CachedStaysCached(list: seq<IndexedBlock>, rpc: Rpc, cache: map<int, string>, j: nat)
    requires 0 < j < |list| && Ascending(Numbers(list)) && Cached(cache, list[j])
    requires Emission(list, rpc, cache).None?
    ensures Cached(Remembered(list, rpc, cache), list[j])
  {
    VerifiedKeeps(list, rpc, cache, j, |list|);
  }

  /** A chain of which block 2 carries `tip`, on top of blocks that all carry `base`. */
  function TwoBlocks(base: string, tip: string): Chain {
    n => if n == 2 then Header(tip, base) else Header(base, "")
  }

  /**
   * Two checks of two blocks: the chain replaces the newer one in between, and the second check is
   * quiet all the same, since the newest block is second in the list and cached.
   */
  lemma ReplacedTipIsMissed(base: string, tip: string, tip': string, depth: nat)
    requires tip != tip' && depth >= 2
    ensures
      var list := [IndexedBlock(1, base, ""), IndexedBlock(2, tip, base)];
      var first, second := TwoBlocks(base, tip), TwoBlocks(base, tip');
      && WellFormed(first) && WellFormed(second) && Examined(list, depth) == list
      && Emission(list, Node(first), map[]).None?
      && Emission(list, Node(second), Remembered(list, Node(first), map[])).None?
      && !HashAgrees(second, list[1])
  {
    var list := [IndexedBlock(1, base, ""), IndexedBlock(2, tip, base)];
    var first, second := TwoBlocks(base, tip), TwoBlocks(base, tip');
    var none: map<int, string> := map[];
    assert list[..1] == [list[0]];
    assert HashAt(list[..1], 1) == Some(base) && HashAt(list, 1) == Some(base);
    QuietIsExact(list, Node(first), none);
    var cache := Verified(list, Node(first), none, 2);
    assert cache == Verified(list, Node(first), none, 1)[2 := tip];
    QuietIsExact(list, Node(second), cache);
  }

  lemma AgreeingIsLinked(list: seq<IndexedBlock>, chain: Chain, b: IndexedBlock)
    requires Agrees(chain, b)
    requires forall p | p in list && p.number == b.number - 1 :: HashAgrees(chain, p)
    ensures Linked(list, b)
  {
    HashAtFound(list, b.number - 1);
  }

  /**
   * Whom an emission blames: the emitted block does not agree with the chain, or the examined block
   * just below it does not. Errors and caching cannot make an innocent pair look guilty.
   */
  lemma EmissionIsJustified(list: seq<IndexedBlock>, rpc: Rpc, cache: map<int, string>, chain: Chain)
    requires Truthful(rpc, chain) && WellFormed(chain) && Emission(list, rpc, cache).Some?
    ensures
      var b := Emission(list, rpc, cache).value;
      && b in list
      && (Agrees(chain, b) ==> exists p | p in list :: p.number == b.number - 1 && !HashAgrees(chain, p))
  {
    var b := Emission(list, rpc, cache).value;
    FirstUnlinkedSpec(list, 0);
    FirstMismatchSpec(list, rpc, cache, 0);
    assert WellFormedAt(chain, b.number);
    if FirstUnlinked(list, 0).Some? {
      if Agrees(chain, b) && forall p | p in list && p.number == b.number - 1 :: HashAgrees(chain, p) {
        AgreeingIsLinked(list, chain, b);
      }
    } else {
      assert Mismatch(rpc, b);
    }
  }

  ghost predicate DistinctNumbers(list: seq<IndexedBlock>) {
    forall i, j | 0 <= i < j < |list| :: list[i].number != list[j].number
  }

  /** With distinct numbers, a hash is found for a number exactly when a listed block carries both. */
  lemma {:induction false} HashAtExactly(list: seq<IndexedBlock>, n: int, h: string)
    requires DistinctNumbers(list)
    ensures HashAt(list, n) == Some(h) <==> exists b | b in list :: b.number == n && b.hash == h
    decreases |list|
  {
    if list != [] {
      var init, last := list[..|list| - 1], list[|list| - 1];
      assert list == init + [last];
      HashAtExactly(init, n, h);
      assert forall b | b in init :: b.number != last.number by {
        forall i | 0 <= i < |init| ensures init[i].number != last.number {
          assert list[i].number != list[|list| - 1].number;
        }
      }
    }
  }

  lemma {:induction false} FirstUnlinkedIs(list: seq<IndexedBlock>, i: nat, j: nat)
    requires DistinctNumbers(list) && i <= j < |list|
    ensures FirstUnlinked(list, i) == Some(list[j]) <==>
            !Linked(list, list[j]) && forall h | i <= h < j :: Linked(list, list[h])
    decreases j - i
  {
    if i < j {
      assert list[i].number != list[j].number;
      FirstUnlinkedIs(list, i + 1, j);
    } else {
      FirstUnlinkedSpec(list, i);
    }
  }

  /** An agreeing block is out of line exactly when a listed block below it has a stale hash. */
  lemma AgreeingUnlinkedExactly(list: seq<IndexedBlock>, chain: Chain, b: IndexedBlock)
    requires DistinctNumbers(list) && Agrees(chain, b)
    ensures !Linked(list, b) <==>
            b.parent != "" && exists p | p in list :: p.number == b.number - 1 && !HashAgrees(chain, p)
  {
    HashAtFound(list, b.number - 1);
    if p :| p in list && p.number == b.number - 1 && !HashAgrees(chain, p) {
      HashAtExactly(list, b.number - 1, p.hash);
    }
  }

  lemma AgreeingMatches(rpc: Rpc, chain: Chain, b: IndexedBlock)
    requires Truthful(rpc, chain) && WellFormed(chain) && Agrees(chain, b)
    ensures !Mismatch(rpc, b)
  {
    assert WellFormedAt(chain, b.number);
  }

  /**
   * Exactly when a block that agrees with the chain is nevertheless emitted: it names a parent, a
   * listed block just below it has a hash that is not canonical, and every block listed before it is
   * in line with its own parent. Errors and the cache play no part.
   */
  lemma AgreeingEmittedExactly(list: seq<IndexedBlock>, rpc: Rpc, cache: map<int, string>, chain: Chain, j: nat)
    requires DistinctNumbers(list) && Truthful(rpc, chain) && WellFormed(chain)
    requires j < |list| && Agrees(chain, list[j])
    ensures Emission(list, rpc, cache) == Some(list[j]) <==>
      && list[j].parent != ""
      && (exists p | p in list :: p.number == list[j].number - 1 && !HashAgrees(chain, p))
      && forall h | 0 <= h < j :: Linked(list, list[h])
  {
    FirstUnlinkedIs(list, 0, j);
    AgreeingUnlinkedExactly(list, chain, list[j]);
    AgreeingMatches(rpc, chain, list[j]);
    FirstMismatchSpec(list, rpc, cache, 0);
  }

  /** Blocks that all agree with the chain never trigger an emission. */
  lemma AgreeingIsQuiet(list: seq<IndexedBlock>, rpc: Rpc, cache: map<int, string>, chain: Chain)
    requires Truthful(rpc, chain) && WellFormed(chain)
    requires forall b | b in list :: Agrees(chain, b)
    ensures Emission(list, rpc, cache).None?
  {
    if Emission(list, rpc, cache).Some? { EmissionIsJustified(list, rpc, cache, chain); }
  }

  /** A block that agrees with the chain can be the one emitted: its stale parent breaks the link above it. */
  lemma AgreeingChildEmitted() returns (chain: Chain, stale: IndexedBlock, child: IndexedBlock)
    ensures WellFormed(chain) && !Agrees(chain, stale) && Agrees(chain, child)
    ensures forall cache :: Emission([stale, child], Node(chain), cache) == Some(child)
  {
    chain := n => Header(if n == 1 then "a" else if n == 2 then "b" else "",
                         if n == 2 then "a" else if n == 3 then "b" else "");
    stale, child := IndexedBlock(1, "x", ""), IndexedBlock(2, "b", "a");
    forall n ensures WellFormedAt(chain, n) {
    }
    var list := [stale, child];
    assert list[..1] == [stale] && [stale][..0] == [];
    assert HashAt([stale], 1) == Some("x") && HashAt(list, 1) == Some("x");
    assert Linked(list, list[0]) && !Linked(list, list[1]);
    assert FirstUnlinked(list, 1) == Some(child);
    assert FirstUnlinked(list, 0) == Some(child);
  }

  // ----- Repair -----

  lemma PurgedNumbers(blocks: map<int, Block>, fork: int)
    requires fork in UnfinalizedNumbers(blocks)
    ensures |UnfinalizedNumbers(BlocksBefore(blocks, fork))| < |UnfinalizedNumbers(blocks)|
  {
    var before, after := UnfinalizedNumbers(blocks), UnfinalizedNumbers(BlocksBefore(blocks, fork));
    assert after <= before - {fork};
    Smaller(after, before - {fork});
  }

  lemma Smaller(a: set<int>, b: set<int>)
    requires a <= b
    ensures |a| <= |b|
  {
    assert b == a + (b - a);
  }

  /** Every unfinalized block below `m` agrees with the chain. */
  ghost predicate AgreesBelow(chain: Chain, blocks: map<int, Block>, m: int) {
    forall n | n in blocks && blocks[n].finality != Finalized && n < m :: Agrees(chain, RowOf(blocks, n))
  }

  lemma ExaminedMembers(list: seq<IndexedBlock>, depth: nat)
    ensures forall b | b in Examined(list, depth) :: b in list
  {
  }

  /** The blocks of a check have distinct numbers. */
  lemma ExaminedAreDistinct(blocks: map<int, Block>, list: seq<IndexedBlock>, depth: nat)
    requires NewestUnfinalized(blocks, list)
    ensures DistinctNumbers(Examined(list, depth))
  {
    assert forall i, j | 0 <= i < j < |list| :: Numbers(list)[i] < Numbers(list)[j];
  }

  lemma AgreesBelowKept(chain: Chain, blocks: map<int, Block>, fork: int, m: int)
    requires AgreesBelow(chain, blocks, m)
    ensures AgreesBelow(chain, BlocksBefore(blocks, fork), m)
  {
    var before := BlocksBefore(blocks, fork);
    forall n | n in before && before[n].finality != Finalized && n < m
      ensures Agrees(chain, RowOf(BlocksBefore(blocks, fork), n))
    {
      assert n in blocks && RowOf(before, n) == RowOf(blocks, n);
    }
  }

  /** A purge from an emitted block spares everything below the first disagreement. */
  lemma PurgeSparesAgreeing(
    chain: Chain, blocks: map<int, Block>, list: seq<IndexedBlock>, depth: nat, cache: map<int, string>, m: int)
    requires WellFormed(chain) && NewestUnfinalized(blocks, list) && AgreesBelow(chain, blocks, m)
    requires Emission(Examined(list, depth), Node(chain), cache).Some?
    ensures Emission(Examined(list, depth), Node(chain), cache).value.number >= m
  {
    var b := Emission(Examined(list, depth), Node(chain), cache).value;
    EmissionIsJustified(Examined(list, depth), Node(chain), cache, chain);
    ExaminedMembers(list, depth);
    assert b in list;
  }

  /** Everything below `m` is as it was. */
  ghost predicate SameBelow(blocks: map<int, Block>, blocks': map<int, Block>, m: int) {
    forall n | n in blocks && n < m :: n in blocks' && blocks'[n] == blocks[n]
  }

  // ----- The window of a check -----

  /** The unfinalized blocks above `n`. */
  function NewerUnfinalized(blocks: map<int, Block>, n: int): set<int> {
    set m | m in blocks && m > n && blocks[m].finality != Finalized
  }

  function ElementsFrom(ns: seq<int>, i: nat): set<int>
    requires i <= |ns|
  {
    set j | i <= j < |ns| :: ns[j]
  }

  lemma {:induction false} AscendingCount(ns: seq<int>, i: nat)
    requires Ascending(ns) && i <= |ns|
    ensures |ElementsFrom(ns, i)| == |ns| - i
    decreases |ns| - i
  {
    if i == |ns| {
      assert ElementsFrom(ns, i) == {};
    } else {
      AscendingCount(ns, i + 1);
      assert ElementsFrom(ns, i) == ElementsFrom(ns, i + 1) + {ns[i]};
      assert ns[i] !in ElementsFrom(ns, i + 1);
    }
  }

  lemma SubsetCount(s: set<int>, t: set<int>)
    requires s <= t
    ensures |s| <= |t|
  {
    assert t == s + (t - s);
  }

  /** A listed suffix above `n` is part of the newer unfinalized blocks. */
  lemma ListedAbove(blocks: map<int, Block>, list: seq<IndexedBlock>, n: int, i: nat)
    requires NewestUnfinalized(blocks, list) && i <= |list| && (i < |list| ==> n < list[i].number)
    ensures |NewerUnfinalized(blocks, n)| >= |list| - i
  {
    var ns := Numbers(list);
    AscendingCount(ns, i);
    forall x | x in ElementsFrom(ns, i) ensures x in NewerUnfinalized(blocks, n) {
      var j :| i <= j < |ns| && ns[j] == x;
      assert list[j] in list && (j > i ==> ns[i] < ns[j]);
    }
    SubsetCount(ElementsFrom(ns, i), NewerUnfinalized(blocks, n));
  }

  lemma ExaminedSuffix(list: seq<IndexedBlock>, depth: nat, i: nat)
    requires i < |list| && |list| - depth <= i
    ensures list[i] in Examined(list, depth)
  {
    if |list| > depth {
      assert Reversed(list)[..depth][|list| - 1 - i] == list[i];
    }
  }

  /** An unfinalized block is examined, or as many newer ones are as one check looks at. */
  lemma WindowCovers(blocks: map<int, Block>, list: seq<IndexedBlock>, depth: nat, n: int)
    requires NewestUnfinalized(blocks, list) && n in blocks && blocks[n].finality != Finalized
    ensures RowOf(blocks, n) in Examined(list, depth) || |NewerUnfinalized(blocks, n)| >= Min(depth, 1000)
  {
    if RowOf(blocks, n) in list {
      var i :| 0 <= i < |list| && list[i] == RowOf(blocks, n);
      if |list| - depth <= i {
        ExaminedSuffix(list, depth, i);
      } else {
        if depth > 0 { assert Numbers(list)[i] < Numbers(list)[|list| - depth]; }
        ListedAbove(blocks, list, n, |list| - depth);
      }
    } else {
      ListedAbove(blocks, list, n, 0);
    }
  }

  /** A quiet check proves the hash of every unfinalized block in its window, read off the table itself. */
  lemma QuietCoversWindow(blocks: map<int, Block>, list: seq<IndexedBlock>, depth: nat, chain: Chain)
    requires NewestUnfinalized(blocks, list)
    requires forall b | b in Examined(list, depth) :: HashAgrees(chain, b)
    ensures forall n | n in blocks && blocks[n].finality != Finalized ::
      blocks[n].hash == chain(n).hash || |NewerUnfinalized(blocks, n)| >= Min(depth, 1000)
  {
    forall n | n in blocks && blocks[n].finality != Finalized
      ensures blocks[n].hash == chain(n).hash || |NewerUnfinalized(blocks, n)| >= Min(depth, 1000)
    {
      WindowCovers(blocks, list, depth, n);
      if RowOf(blocks, n) in Examined(list, depth) { assert HashAgrees(chain, RowOf(blocks, n)); }
    }
  }

  // ----- The repair loop -----

  /** The rows from the fork on cannot be reversed: a balance row they would insert is inserted twice. */
  ghost predicate Irreversible(l: Tables, fork: int, order: seq<Uuid>) {
    && Enumerates(order, From(l.events, fork))
    && !Insertable(l.balances, Reversals(Rows(order, l.events)))
  }

  /** Every balance an applied event moved has its row. */
  ghost predicate RowsExist(l: Tables) {
    forall i, it | i in l.events && it in ReversalOf(l.events[i]) :: it.key in l.balances
  }

  lemma MissingRowIsUnmentioned(l: Tables, fork: int, order: seq<Uuid>, k: BalanceKey)
    requires RowsExist(l) && Enumerates(order, From(l.events, fork)) && k !in l.balances
    ensures CountFor(Reversals(Rows(order, l.events)), k) == 0
  {
    var items := Reversals(Rows(order, l.events));
    forall it | it in items ensures it.key != k {
      MembersOfSet(l.events, From(l.events, fork), order, it);
    }
    CountForMentions(items, k);
  }

  /** With every row in place any suffix of the chain can be reversed. */
  lemma RowsMakeReversible(l: Tables, fork: int, order: seq<Uuid>)
    requires RowsExist(l) && Enumerates(order, From(l.events, fork))
    ensures Insertable(l.balances, Reversals(Rows(order, l.events)))
  {
    forall k | k !in l.balances ensures CountFor(Reversals(Rows(order, l.events)), k) <= 1 {
      MissingRowIsUnmentioned(l, fork, order, k);
    }
  }

  /** A purge deletes events and no balance row. */
  lemma PurgeKeepsRows(l: Tables, fork: int, order: seq<Uuid>, l': Tables)
    requires RowsExist(l) && PurgeCommits(BulkStatement, l, fork, order, l')
    ensures RowsExist(l')
  {
    OutcomeKeepsRows(l.balances, Reversals(Rows(order, l.events)), l'.balances);
    assert forall i | i in l'.events :: i in l.events && l'.events[i] == l.events[i];
  }

  /**
   * Checks alternating with forced purges from the emitted block, over a fixed chain and a node that
   * answers: at most one emission per unfinalized block, a quiet end in which every examined hash is
   * canonical, and nothing lost below the first disagreement. It gives up only over rows that cannot be
   * reversed, which never happens while every applied event has its balance rows.
   */
  method Repair(d: Detector, store: Store, chain: Chain)
    returns (ok: bool, forks: seq<int>, ghost list: seq<IndexedBlock>)
    requires store.Valid() && d.maxCheckDepth > 0 && CacheSound(d.lastVerified, chain)
    modifies d`lastVerified, d`consecutiveRPCErrs, store
    ensures store.Valid() && CacheSound(d.lastVerified, chain)
    ensures |forks| + |UnfinalizedNumbers(store.blocks)| <= |UnfinalizedNumbers(old(store.blocks))|
    ensures !ok ==> exists fork, order :: Irreversible(store.State(), fork, order)
    ensures RowsExist(old(store.State())) ==> ok && RowsExist(store.State())
    ensures ok ==> NewestUnfinalized(store.blocks, list)
    ensures ok ==> forall b | b in Examined(list, d.maxCheckDepth) :: HashAgrees(chain, b)
    ensures ok ==> forall n | n in store.blocks && store.blocks[n].finality != Finalized ::
      store.blocks[n].hash == chain(n).hash || |NewerUnfinalized(store.blocks, n)| >= Min(d.maxCheckDepth, 1000)
    ensures WellFormed(chain) ==> forall m | AgreesBelow(chain, old(store.blocks), m) ::
      SameBelow(old(store.blocks), store.blocks, m)
  {
    forks, list := [], [];
    while true
      invariant store.Valid() && CacheSound(d.lastVerified, chain)
      invariant RowsExist(old(store.State())) ==> RowsExist(store.State())
      invariant |forks| + |UnfinalizedNumbers(store.blocks)| <= |UnfinalizedNumbers(old(store.blocks))|
      invariant WellFormed(chain) ==> forall m | AgreesBelow(chain, old(store.blocks), m) ::
        AgreesBelow(chain, store.blocks, m) && SameBelow(old(store.blocks), store.blocks, m)
      decreases |UnfinalizedNumbers(store.blocks)|
    {
      ghost var cache, blocks, before := d.lastVerified, store.blocks, store.State();
      var emitted;
      emitted, list := d.Check(store.blocks, Node(chain));
      ExaminedMembers(list, d.maxCheckDepth);
      RememberedSound(Examined(list, d.maxCheckDepth), Node(chain), cache, chain);
      if emitted.None? {
        QuietMeansAgreed(Examined(list, d.maxCheckDepth), cache, chain);
        QuietCoversWindow(store.blocks, list, d.maxCheckDepth, chain);
        return true, forks, list;
      }
      EmittedIsUnfinalized(blocks, list, d.maxCheckDepth, Node(chain), cache);
      var outcome;
      ghost var order;
      outcome, order := store.PurgeFromBlock(emitted.value.number, false, true);
      if RowsExist(before) { RowsMakeReversible(before, emitted.value.number, order); }
      if !outcome.PurgeDone? {
        assert Irreversible(store.State(), emitted.value.number, order);
        return false, forks, list;
      }
      if RowsExist(before) { PurgeKeepsRows(before, emitted.value.number, order, store.State()); }
      PurgedNumbers(blocks, emitted.value.number);
      if WellFormed(chain) {
        forall m | AgreesBelow(chain, old(store.blocks), m)
          ensures AgreesBelow(chain, store.blocks, m) && SameBelow(old(store.blocks), store.blocks, m)
        {
          PurgeSparesAgreeing(chain, blocks, list, d.maxCheckDepth, cache, m);
          AgreesBelowKept(chain, blocks, emitted.value.number, m);
        }
      }
      forks := forks + [emitted.value.number];
    }
    assert false;
  }

  lemma EmittedIsUnfinalized(
    blocks: map<int, Block>, list: seq<IndexedBlock>, depth: nat, rpc: Rpc, cache: map<int, string>)
    requires NewestUnfinalized(blocks, list) && Emission(Examined(list, depth), rpc, cache).Some?
    ensures Emission(Examined(list, depth), rpc, cache).value.number in UnfinalizedNumbers(blocks)
  {
    FirstUnlinkedSpec(Examined(list, depth), 0);
    FirstMismatchSpec(Examined(list, depth), rpc, cache, 0);
    ExaminedMembers(list, depth);
  }

  /** When the unfinalized blocks fit one check, a quiet end means every one of them carries a canonical hash. */
  lemma QuietCoversAll(blocks: map<int, Block>, list: seq<IndexedBlock>, depth: nat, chain: Chain)
    requires NewestUnfinalized(blocks, list) && |list| <= depth && |list| < 1000
    requires forall b | b in Examined(list, depth) :: HashAgrees(chain, b)
    ensures forall n | n in blocks && blocks[n].finality != Finalized :: blocks[n].hash == chain(n).hash
  {
    forall n | n in blocks && blocks[n].finality != Finalized ensures blocks[n].hash == chain(n).hash {
      assert RowOf(blocks, n) in list && Examined(list, depth) == list;
      assert HashAgrees(chain, RowOf(blocks, n));
    }
  }
}
