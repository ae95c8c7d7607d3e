/** The replay service's purge, the ingester's inline purge, and the bulk statement under both. */
module PurgeForms {
  import opened Sums
  import opened Ledger
  import opened BalanceStore
  import opened EventBuilder
  import opened LedgerSteps

  function OfKind(items: seq<AdjustItem>, kind: BalanceType): seq<AdjustItem> {
    if items == [] then []
    else OfKind(items[..|items| - 1], kind) + (if items[|items| - 1].key.kind == kind then [items[|items| - 1]] else [])
  }

  lemma {:induction false} OfKindSplit(a: seq<AdjustItem>, b: seq<AdjustItem>, kind: BalanceType)
    ensures OfKind(a + b, kind) == OfKind(a, kind) + OfKind(b, kind)
    decreases |b|
  {
    if b == [] {
      assert a + b == a;
    } else {
      assert (a + b)[..|a + b| - 1] == a + b[..|b| - 1];
      OfKindSplit(a, b[..|b| - 1], kind);
    }
  }

  lemma OfKindReversal(e: BalanceEvent)
    ensures OfKind(ReversalOf(e), Liquid) == if e.applied then [Item(e, Liquid, -e.delta)] else []
    ensures OfKind(ReversalOf(e), Staked) ==
      if e.applied && IsStaking(e.activity) then [Item(e, Staked, e.delta)] else []
  {
    var liquid, staked := [Item(e, Liquid, -e.delta)], [Item(e, Staked, e.delta)];
    assert liquid[..0] == [] && staked[..0] == [];
    OfKindSplit(liquid, staked, Liquid);
    OfKindSplit(liquid, staked, Staked);
  }

  /** Step 2 of executePurge keeps liquid and staked reversals in two lists. */
  method SplitReversals(es: seq<BalanceEvent>) returns (liquid: seq<AdjustItem>, staked: seq<AdjustItem>)
    ensures liquid == OfKind(Reversals(es), Liquid) && staked == OfKind(Reversals(es), Staked)
  {
    liquid, staked := [], [];
    for i := 0 to |es|
      invariant liquid == OfKind(Reversals(es[..i]), Liquid) && staked == OfKind(Reversals(es[..i]), Staked)
    {
      assert es[..i + 1][..i] == es[..i];
      OfKindSplit(Reversals(es[..i]), ReversalOf(es[i]), Liquid);
      OfKindSplit(Reversals(es[..i]), ReversalOf(es[i]), Staked);
      OfKindReversal(es[i]);
      if !es[i].applied { continue; }
      liquid := liquid + [Item(es[i], Liquid, -es[i].delta)];
      if IsStaking(es[i].activity) { staked := staked + [Item(es[i], Staked, es[i].delta)]; }
    }
    assert es[..|es|] == es;
  }

  /** executePurge: the liquid reversals in one bulk call, then the staked ones in another. */
  ghost predicate ServicePurges(mode: Mode, l: Tables, fromBlock: int, order: seq<Uuid>, mid: Balances, l': Tables) {
    && Enumerates(order, From(l.events, fromBlock))
    && Adjusted(mode, l.balances, OfKind(Reversals(Rows(order, l.events)), Liquid), mid)
    && Adjusted(mode, mid, OfKind(Reversals(Rows(order, l.events)), Staked), l'.balances)
    && l' == Purged(l, fromBlock, l'.balances)
  }

  // ----- Members and counts of reversal lists -----

  lemma {:induction false} OfKindCounts(items: seq<AdjustItem>, kind: BalanceType, k: BalanceKey)
    ensures CountFor(OfKind(items, kind), k) == if k.kind == kind then CountFor(items, k) else 0
    ensures SumFor(OfKind(items, kind), k) == if k.kind == kind then SumFor(items, k) else 0
    decreases |items|
  {
    if items != [] {
      var init, last := items[..|items| - 1], items[|items| - 1];
      OfKindCounts(init, kind, k);
      SplitSums(init, [last], k);
      assert items == init + [last];
      SplitSums(OfKind(init, kind), if last.key.kind == kind then [last] else [], k);
    }
  }

  lemma {:induction false} OfKindMembers(items: seq<AdjustItem>, kind: BalanceType, it: AdjustItem)
    ensures it in OfKind(items, kind) <==> it in items && it.key.kind == kind
    decreases |items|
  {
    if items != [] {
      var init, last := items[..|items| - 1], items[|items| - 1];
      OfKindMembers(init, kind, it);
      assert items == init + [last];
    }
  }

  lemma {:induction false} ReversalMembers(es: seq<BalanceEvent>, it: AdjustItem)
    ensures it in Reversals(es) <==> exists e | e in es :: it in ReversalOf(e)
    decreases |es|
  {
    if es != [] {
      var init, e := es[..|es| - 1], es[|es| - 1];
      ReversalMembers(init, it);
      assert forall x :: x in es <==> x in init || x == e;
    }
  }

  /** How many reversal items each stored row contributes to a key: none or one. */
  function ReversalCounts(t: EventTable, k: BalanceKey): map<Uuid, int> {
    map i | i in t :: CountFor(ReversalOf(t[i]), k)
  }

  lemma {:induction false} ReversalsCount(order: seq<Uuid>, t: EventTable, k: BalanceKey)
    requires forall n | 0 <= n < |order| :: order[n] in t
    ensures CountFor(Reversals(Rows(order, t)), k) == SumOver(order, ReversalCounts(t, k))
    decreases |order|
  {
    if order != [] {
      var n := |order| - 1;
      ReversalsCount(order[..n], t, k);
      assert Rows(order, t)[..n] == Rows(order[..n], t);
      SplitSums(Reversals(Rows(order[..n], t)), ReversalOf(t[order[n]]), k);
    }
  }

  lemma MembersOfSet(t: EventTable, s: set<Uuid>, order: seq<Uuid>, it: AdjustItem)
    requires s <= t.Keys && Enumerates(order, s)
    ensures it in Reversals(Rows(order, t)) <==> exists i | i in s :: it in ReversalOf(t[i])
  {
    var rows := Rows(order, t);
    ReversalMembers(rows, it);
    if i :| i in s && it in ReversalOf(t[i]) {
      assert i in order;
      var n :| 0 <= n < |order| && order[n] == i;
      assert rows[n] in rows;
    }
    if e :| e in rows && it in ReversalOf(e) {
      var n :| 0 <= n < |rows| && rows[n] == e;
      var i := order[n];
      assert i in s && it in ReversalOf(t[i]);
    }
  }

  function CountsOfSet(t: EventTable, s: set<Uuid>, k: BalanceKey): map<Uuid, int> {
    Restricted(ReversalCounts(t, k), s)
  }

  lemma CountOfSet(t: EventTable, s: set<Uuid>, order: seq<Uuid>, k: BalanceKey)
    requires s <= t.Keys && Enumerates(order, s)
    ensures CountFor(Reversals(Rows(order, t)), k) == Total(CountsOfSet(t, s, k))
  {
    ReversalsCount(order, t, k);
    EnumerationTotal(order, s, ReversalCounts(t, k));
  }

  // ----- One bulk call or two -----

  /** The rows after the liquid call: liquid rows as they end up, staked rows as they were. */
  ghost function Midway(b: Balances, b': Balances): Balances {
    map k | k in b.Keys + b'.Keys && (if k.kind == Liquid then k in b' else k in b) ::
      if k.kind == Liquid then b'[k] else b[k]
  }

  lemma MentionsOfKind(items: seq<AdjustItem>, kind: BalanceType, k: BalanceKey)
    ensures Mentions(OfKind(items, kind), k) <==> k.kind == kind && Mentions(items, k)
    ensures forall it: AdjustItem | it.key == k && k.kind == kind :: it in OfKind(items, kind) <==> it in items
  {
    OfKindCounts(items, kind, k);
    CountForMentions(OfKind(items, kind), k);
    CountForMentions(items, k);
    forall it ensures it in OfKind(items, kind) <==> it in items && it.key.kind == kind {
      OfKindMembers(items, kind, it);
    }
  }

  lemma TwoCallsAreOne(b: Balances, items: seq<AdjustItem>, mid: Balances, b': Balances)
    requires BulkAdjusted(b, OfKind(items, Liquid), mid) && BulkAdjusted(mid, OfKind(items, Staked), b')
    ensures BulkAdjusted(b, items, b')
  {
    forall k ensures RowAdjusted(Row(b, k), items, k, Row(b', k)) {
      MentionsOfKind(items, Liquid, k);
      MentionsOfKind(items, Staked, k);
      OfKindCounts(items, k.kind, k);
      assert RowAdjusted(Row(b, k), OfKind(items, Liquid), k, Row(mid, k));
      assert RowAdjusted(Row(mid, k), OfKind(items, Staked), k, Row(b', k));
    }
  }

  lemma OneCallIsTwo(b: Balances, items: seq<AdjustItem>, b': Balances)
    requires BulkAdjusted(b, items, b')
    ensures BulkAdjusted(b, OfKind(items, Liquid), Midway(b, b'))
    ensures BulkAdjusted(Midway(b, b'), OfKind(items, Staked), b')
  {
    var mid := Midway(b, b');
    forall k
      ensures RowAdjusted(Row(b, k), OfKind(items, Liquid), k, Row(mid, k))
      ensures RowAdjusted(Row(mid, k), OfKind(items, Staked), k, Row(b', k))
    {
      MentionsOfKind(items, Liquid, k);
      MentionsOfKind(items, Staked, k);
      OfKindCounts(items, k.kind, k);
      assert RowAdjusted(Row(b, k), items, k, Row(b', k));
      assert Row(mid, k) == if k.kind == Liquid then Row(b', k) else Row(b, k);
    }
  }

  /**
   * The service's purge and the ingester's inline purge have the same outcomes from every state,
   * whatever order each reads the rows in: the same tables, down to every balance row.
   */
  lemma PurgeFormsAgree(l: Tables, fromBlock: int, serviceOrder: seq<Uuid>, inlineOrder: seq<Uuid>, l': Tables)
    requires Enumerates(serviceOrder, From(l.events, fromBlock))
    requires Enumerates(inlineOrder, From(l.events, fromBlock))
    ensures (exists mid :: ServicePurges(BulkStatement, l, fromBlock, serviceOrder, mid, l'))
       <==> PurgeCommits(BulkStatement, l, fromBlock, inlineOrder, l')
  {
    var service, inline := Reversals(Rows(serviceOrder, l.events)), Reversals(Rows(inlineOrder, l.events));
    var s := From(l.events, fromBlock);
    forall it ensures it in service <==> it in inline {
      MembersOfSet(l.events, s, serviceOrder, it);
      MembersOfSet(l.events, s, inlineOrder, it);
    }
    forall k ensures CountFor(service, k) == CountFor(inline, k) {
      CountOfSet(l.events, s, serviceOrder, k);
      CountOfSet(l.events, s, inlineOrder, k);
    }
    SameOutcomes(l.balances, service, inline, l'.balances);
    if mid :| ServicePurges(BulkStatement, l, fromBlock, serviceOrder, mid, l') {
      TwoCallsAreOne(l.balances, service, mid, l'.balances);
    }
    if PurgeCommits(BulkStatement, l, fromBlock, inlineOrder, l') {
      OneCallIsTwo(l.balances, service, l'.balances);
      assert ServicePurges(BulkStatement, l, fromBlock, serviceOrder, Midway(l.balances, l'.balances), l');
    }
  }

  /** Adjusting item by item, both forms and both orders reach the same amounts as well. */
  lemma PurgeFormsAgreeAdditively(
    l: Tables, fromBlock: int, serviceOrder: seq<Uuid>, inlineOrder: seq<Uuid>, mid: Balances, l1: Tables, l2: Tables)
    requires ServicePurges(PerRow, l, fromBlock, serviceOrder, mid, l1)
    requires PurgeCommits(PerRow, l, fromBlock, inlineOrder, l2)
    ensures l1 == l2.(balances := l1.balances)
    ensures forall k :: Amount(l1.balances, k) == Amount(l2.balances, k)
  {
    var s := From(l.events, fromBlock);
    forall k ensures Amount(l1.balances, k) == Amount(l2.balances, k) {
      var service := Reversals(Rows(serviceOrder, l.events));
      AdjustAllAmount(l.balances, OfKind(service, Liquid), k);
      AdjustAllAmount(mid, OfKind(service, Staked), k);
      AdjustAllAmount(l.balances, Reversals(Rows(inlineOrder, l.events)), k);
      OfKindCounts(service, Liquid, k);
      OfKindCounts(service, Staked, k);
      ReversalsSum(Rows(serviceOrder, l.events), k);
      ReversalsSum(Rows(inlineOrder, l.events), k);
      RowsOfRestricted(serviceOrder, l.events, s, k);
      RowsOfRestricted(inlineOrder, l.events, s, k);
    }
  }

  // ----- What a purge through the bulk statement really does -----

  /** Among the purged rows, two applied events may share an address and token only if both moved nothing. */
  ghost predicate Reversible(t: EventTable, s: set<Uuid>) {
    forall i, j | i in s && j in s && i in t && j in t && i != j && t[i].applied && t[j].applied
                  && t[i].address == t[j].address && t[i].token == t[j].token ::
      t[i].delta == 0
  }

  lemma ReversalOfKey(e: BalanceEvent, k: BalanceKey)
    ensures CountFor(ReversalOf(e), k) <= 1
    ensures CountFor(ReversalOf(e), k) == 1 <==>
            e.applied && k.address == e.address && k.token == e.token && (k.kind == Liquid || IsStaking(e.activity))
    ensures forall it | it in ReversalOf(e) && it.key == k ::
      it.delta == -e.Effect(k) && CountFor(ReversalOf(e), k) == 1
  {
    var liquid, staked := [Item(e, Liquid, -e.delta)], [Item(e, Staked, e.delta)];
    SplitSums(liquid, staked, k);
    assert liquid[1..] == [] && staked[1..] == [];
  }

  /** A key with two reversal items has two rows behind it. */
  lemma SecondRow(t: EventTable, s: set<Uuid>, k: BalanceKey, i: Uuid) returns (j: Uuid)
    requires s <= t.Keys && i in s
    requires Total(CountsOfSet(t, s, k)) > 1
    ensures j in s && j != i && CountFor(ReversalOf(t[j]), k) == 1
  {
    var counts := CountsOfSet(t, s, k);
    TotalRemove(counts, i);
    ReversalOfKey(t[i], k);
    if forall x | x in counts - {i} :: counts[x] == 0 { TotalZero(counts - {i}); }
    j :| j in counts - {i} && counts[j] != 0;
    ReversalOfKey(t[j], k);
  }

  lemma ReversibleMeansZero(t: EventTable, s: set<Uuid>, order: seq<Uuid>, k: BalanceKey, it: AdjustItem)
    requires s <= t.Keys && Enumerates(order, s) && Reversible(t, s)
    requires CountFor(Reversals(Rows(order, t)), k) > 1
    requires it in Reversals(Rows(order, t)) && it.key == k
    ensures it.delta == 0
  {
    MembersOfSet(t, s, order, it);
    CountOfSet(t, s, order, k);
    var i :| i in s && it in ReversalOf(t[i]);
    var j := SecondRow(t, s, k, i);
    SharedKeyIsZero(t, s, k, i, j, it);
  }

  lemma SharedKeyIsZero(t: EventTable, s: set<Uuid>, k: BalanceKey, i: Uuid, j: Uuid, it: AdjustItem)
    requires s <= t.Keys && Reversible(t, s) && i in s && j in s && i != j
    requires it in ReversalOf(t[i]) && it.key == k && CountFor(ReversalOf(t[j]), k) == 1
    ensures it.delta == 0
  {
    ReversalOfKey(t[i], k);
    ReversalOfKey(t[j], k);
    assert t[i].delta == 0;
  }

  lemma ZeroMeansReversible(t: EventTable, s: set<Uuid>, order: seq<Uuid>, i: Uuid, j: Uuid)
    requires s <= t.Keys && Enumerates(order, s) && i in s && j in s && i != j
    requires t[i].applied && t[j].applied && t[i].address == t[j].address && t[i].token == t[j].token
    requires
      var items := Reversals(Rows(order, t));
      CountFor(items, LiquidKey(t[i])) <= 1 || AllZero(items, LiquidKey(t[i]))
    ensures t[i].delta == 0
  {
    var k := LiquidKey(t[i]);
    CountOfSet(t, s, order, k);
    ReversalOfKey(t[i], k);
    ReversalOfKey(t[j], k);
    TwoRowsCount(t, s, k, i, j);
    LiquidReversal(t, s, order, i);
  }

  lemma LiquidReversal(t: EventTable, s: set<Uuid>, order: seq<Uuid>, i: Uuid)
    requires s <= t.Keys && Enumerates(order, s) && i in s && t[i].applied
    ensures Item(t[i], Liquid, -t[i].delta) in Reversals(Rows(order, t))
  {
    var it := Item(t[i], Liquid, -t[i].delta);
    assert it in ReversalOf(t[i]) by { assert ReversalOf(t[i])[0] == it; }
    MembersOfSet(t, s, order, it);
  }

  lemma ReversibleIsSeparate(t: EventTable, s: set<Uuid>, order: seq<Uuid>)
    requires s <= t.Keys && Enumerates(order, s)
    ensures Reversible(t, s) <==> Separate(Reversals(Rows(order, t)))
  {
    var items := Reversals(Rows(order, t));
    if Reversible(t, s) {
      forall k | CountFor(items, k) > 1 ensures AllZero(items, k) {
        forall it | it in items && it.key == k ensures it.delta == 0 { ReversibleMeansZero(t, s, order, k, it); }
      }
    }
    if Separate(items) {
      forall i, j | i in s && j in s && i in t && j in t && i != j && t[i].applied && t[j].applied
                    && t[i].address == t[j].address && t[i].token == t[j].token
        ensures t[i].delta == 0
      {
        assert CountFor(items, LiquidKey(t[i])) <= 1 || AllZero(items, LiquidKey(t[i]));
        ZeroMeansReversible(t, s, order, i, j);
      }
    }
  }

  lemma TwoRowsCount(t: EventTable, s: set<Uuid>, k: BalanceKey, i: Uuid, j: Uuid)
    requires s <= t.Keys && i in s && j in s && i != j
    requires CountFor(ReversalOf(t[i]), k) >= 1 && CountFor(ReversalOf(t[j]), k) >= 1
    ensures Total(CountsOfSet(t, s, k)) > 1
  {
    var counts := CountsOfSet(t, s, k);
    TotalRemove(counts, i);
    TotalRemove(counts - {i}, j);
    forall x | x in counts - {i} - {j} ensures counts[x] >= 0 { ReversalOfKey(t[x], k); }
    TotalNonNegative(counts - {i} - {j});
  }

  lemma PurgeDrift(l: Tables, fromBlock: int, order: seq<Uuid>, l': Tables, k: BalanceKey)
    requires Balanced(l) && PurgeCommits(BulkStatement, l, fromBlock, order, l')
    ensures Drift(l', k) == -Lost(l.balances, Reversals(Rows(order, l.events)), l'.balances, k)
  {
    ReversalLaw(l, From(l.events, fromBlock), order, l', k);
    assert Drift(l, k) == 0;
  }

  ghost predicate AlwaysBalanced(l: Tables, fromBlock: int, order: seq<Uuid>) {
    forall l' | PurgeCommits(BulkStatement, l, fromBlock, order, l') :: Balanced(l')
  }

  /** Balanced after every outcome is the same as losing nothing in every outcome. */
  lemma BalancedIsLossFree(l: Tables, fromBlock: int, order: seq<Uuid>)
    requires Balanced(l) && Enumerates(order, From(l.events, fromBlock))
    ensures AlwaysBalanced(l, fromBlock, order) <==> LossFree(l.balances, Reversals(Rows(order, l.events)))
  {
    var items := Reversals(Rows(order, l.events));
    if AlwaysBalanced(l, fromBlock, order) {
      forall b', k | BulkAdjusted(l.balances, items, b') ensures Lost(l.balances, items, b', k) == 0 {
        var l' := Purged(l, fromBlock, b');
        assert PurgeCommits(BulkStatement, l, fromBlock, order, l');
        PurgeDrift(l, fromBlock, order, l', k);
        assert Drift(l', k) == 0;
      }
    }
    if LossFree(l.balances, items) {
      forall l' | PurgeCommits(BulkStatement, l, fromBlock, order, l') ensures Balanced(l') {
        forall k ensures Drift(l', k) == 0 { PurgeDrift(l, fromBlock, order, l', k); }
      }
    }
  }

  /**
   * A purge that goes through the bulk statement keeps a balanced ledger balanced, whatever rows the
   * database picks, if and only if no two of the purged applied events share an address and token
   * with a delta to undo.
   */
  lemma BulkPurgeIsExact(l: Tables, fromBlock: int, order: seq<Uuid>, l0: Tables)
    requires Balanced(l) && PurgeCommits(BulkStatement, l, fromBlock, order, l0)
    ensures AlwaysBalanced(l, fromBlock, order) <==> Reversible(l.events, From(l.events, fromBlock))
  {
    ReversibleIsSeparate(l.events, From(l.events, fromBlock), order);
    BulkExactlyAdditive(l.balances, Reversals(Rows(order, l.events)), l0.balances);
    BalancedIsLossFree(l, fromBlock, order);
  }
}
