/** `balances` adjustments: the single-row statement, and the bulk UPDATE .. FROM + INSERT statement. */
module BalanceStore {
  import opened Sums
  import opened Ledger

  datatype AdjustItem = AdjustItem(
    key: BalanceKey, wallet: Option<string>, org: Option<string>, delta: int, cursor: int, txHash: string)

  function Row(b: Balances, k: BalanceKey): Option<Balance> {
    if k in b then Some(b[k]) else None
  }

  function Applied(before: Option<Balance>, it: AdjustItem): Balance {
    match before
    case Some(b) => b.(amount := b.amount + it.delta, cursor := Max(b.cursor, it.cursor), txHash := it.txHash)
    case None => Balance(it.delta, it.cursor, it.txHash, it.wallet, it.org)
  }

  /** AdjustBalanceTx: INSERT .. ON CONFLICT DO UPDATE for one item. */
  function Adjust(b: Balances, it: AdjustItem): Balances {
    b[it.key := Applied(Row(b, it.key), it)]
  }

  function AdjustAll(b: Balances, items: seq<AdjustItem>): Balances
    decreases |items|
  {
    if items == [] then b else AdjustAll(Adjust(b, items[0]), items[1..])
  }

  predicate Mentions(items: seq<AdjustItem>, k: BalanceKey) {
    exists it | it in items :: it.key == k
  }

  function CountFor(items: seq<AdjustItem>, k: BalanceKey): nat {
    if items == [] then 0 else (if items[0].key == k then 1 else 0) + CountFor(items[1..], k)
  }

  function SumFor(items: seq<AdjustItem>, k: BalanceKey): int {
    if items == [] then 0 else (if items[0].key == k then items[0].delta else 0) + SumFor(items[1..], k)
  }

  /** The newest cursor among `floor` and the items for `k`. */
  function NewestCursor(items: seq<AdjustItem>, k: BalanceKey, floor: int): int {
    if items == [] then floor
    else NewestCursor(items[1..], k, if items[0].key == k then Max(floor, items[0].cursor) else floor)
  }

  ghost predicate DistinctKeys(items: seq<AdjustItem>) {
    forall k :: CountFor(items, k) <= 1
  }

  /**
   * What the bulk statement can do to the row under `k`. A row that exists takes exactly one of the
   * items joined to it, whichever the database picks. A missing row is inserted once: two items for
   * it break the unique constraint and the statement has no outcome.
   */
  ghost predicate RowAdjusted(before: Option<Balance>, items: seq<AdjustItem>, k: BalanceKey, after: Option<Balance>) {
    if Mentions(items, k) then
      && (before.None? ==> CountFor(items, k) <= 1)
      && exists it | it in items :: it.key == k && after == Some(Applied(before, it))
    else after == before
  }

  /** The outcomes of a successful BulkAdjustBalanceTx. */
  ghost predicate BulkAdjusted(b: Balances, items: seq<AdjustItem>, b': Balances) {
    forall k :: RowAdjusted(Row(b, k), items, k, Row(b', k))
  }

  /** How the adjustment list is carried out: item by item, or by the bulk statement. */
  datatype Mode = PerRow | BulkStatement

  ghost predicate Adjusted(mode: Mode, b: Balances, items: seq<AdjustItem>, b': Balances) {
    match mode
    case PerRow => b' == AdjustAll(b, items)
    case BulkStatement => BulkAdjusted(b, items, b')
  }

  /** What an adjustment failed to add under `k`. */
  function Lost(b: Balances, items: seq<AdjustItem>, b': Balances, k: BalanceKey): int {
    Amount(b, k) + SumFor(items, k) - Amount(b', k)
  }

  // ----- Adjusting item by item, one row at a time -----

  function RowAfter(before: Option<Balance>, items: seq<AdjustItem>, k: BalanceKey): Option<Balance>
    decreases |items|
  {
    if items == [] then before
    else RowAfter(if items[0].key == k then Some(Applied(before, items[0])) else before, items[1..], k)
  }

  lemma {:induction false} AdjustAllRow(b: Balances, items: seq<AdjustItem>, k: BalanceKey)
    ensures Row(AdjustAll(b, items), k) == RowAfter(Row(b, k), items, k)
    decreases |items|
  {
    if items != [] { AdjustAllRow(Adjust(b, items[0]), items[1..], k); }
  }

  lemma {:induction false} RowAfterSum(before: Option<Balance>, items: seq<AdjustItem>, k: BalanceKey)
    ensures
      var after := RowAfter(before, items, k);
      && (before.Some? ==>
            && after.Some?
            && after.value.amount == before.value.amount + SumFor(items, k)
            && after.value.cursor == NewestCursor(items, k, before.value.cursor))
      && (before.None? && after.Some? ==> after.value.amount == SumFor(items, k))
      && (before.None? && after.None? ==> SumFor(items, k) == 0)
    decreases |items|
  {
    if items != [] {
      RowAfterSum(if items[0].key == k then Some(Applied(before, items[0])) else before, items[1..], k);
    }
  }

  lemma AdjustAllAmount(b: Balances, items: seq<AdjustItem>, k: BalanceKey)
    ensures Amount(AdjustAll(b, items), k) == Amount(b, k) + SumFor(items, k)
  {
    AdjustAllRow(b, items, k);
    RowAfterSum(Row(b, k), items, k);
  }

  // ----- Items of one key -----

  lemma {:induction false} CountForMentions(items: seq<AdjustItem>, k: BalanceKey)
    ensures CountFor(items, k) > 0 <==> Mentions(items, k)
    decreases |items|
  {
    if items != [] {
      CountForMentions(items[1..], k);
      assert forall it :: it in items <==> it == items[0] || it in items[1..];
    }
  }

  lemma {:induction false} UnmentionedRow(before: Option<Balance>, items: seq<AdjustItem>, k: BalanceKey)
    requires CountFor(items, k) == 0
    ensures SumFor(items, k) == 0 && RowAfter(before, items, k) == before
    decreases |items|
  {
    if items != [] { UnmentionedRow(before, items[1..], k); }
  }

  /** The only item for `k` contributes the whole sum and alone decides the row. */
  lemma {:induction false} LoneItem(before: Option<Balance>, items: seq<AdjustItem>, k: BalanceKey, it: AdjustItem)
    requires it in items && it.key == k && CountFor(items, k) <= 1
    ensures SumFor(items, k) == it.delta && RowAfter(before, items, k) == Some(Applied(before, it))
    decreases |items|
  {
    CountForMentions(items[1..], k);
    if items[0].key == k {
      assert it !in items[1..];
      UnmentionedRow(Some(Applied(before, it)), items[1..], k);
    } else {
      LoneItem(before, items[1..], k, it);
    }
  }

  lemma {:induction false} SumForEqual(items: seq<AdjustItem>, k: BalanceKey, d: int)
    requires forall it | it in items && it.key == k :: it.delta == d
    ensures SumFor(items, k) == CountFor(items, k) * d
    decreases |items|
  {
    if items != [] {
      assert items[0] in items;
      assert forall it | it in items[1..] :: it in items;
      SumForEqual(items[1..], k, d);
    }
  }

  // ----- Order of the items -----

  lemma {:induction false} SplitSums(a: seq<AdjustItem>, b: seq<AdjustItem>, k: BalanceKey)
    ensures SumFor(a + b, k) == SumFor(a, k) + SumFor(b, k)
    ensures CountFor(a + b, k) == CountFor(a, k) + CountFor(b, k)
    decreases |a|
  {
    if a == [] {
      assert a + b == b;
    } else {
      assert (a + b)[1..] == a[1..] + b;
      SplitSums(a[1..], b, k);
    }
  }

  lemma {:induction false} NewestCursorInsert(
    pre: seq<AdjustItem>, x: AdjustItem, post: seq<AdjustItem>, k: BalanceKey, floor: int)
    ensures NewestCursor(pre + [x] + post, k, floor)
         == NewestCursor(pre + post, k, if x.key == k then Max(floor, x.cursor) else floor)
    decreases |pre|
  {
    if pre == [] {
      assert pre + [x] + post == [x] + post && pre + post == post && ([x] + post)[1..] == post;
    } else {
      var y := pre[0];
      assert (pre + [x] + post)[1..] == pre[1..] + [x] + post && (pre + post)[1..] == pre[1..] + post;
      NewestCursorInsert(pre[1..], x, post, k, if y.key == k then Max(floor, y.cursor) else floor);
      assert Max(Max(floor, x.cursor), y.cursor) == Max(Max(floor, y.cursor), x.cursor);
    }
  }

  /** Where the head of a list sits in a reordering of it. */
  lemma Locate(a: seq<AdjustItem>, b: seq<AdjustItem>) returns (pre: seq<AdjustItem>, post: seq<AdjustItem>)
    requires a != [] && multiset(a) == multiset(b)
    ensures b == pre + [a[0]] + post && multiset(a[1..]) == multiset(pre + post)
  {
    var x := a[0];
    assert x in multiset(b);
    var j :| 0 <= j < |b| && b[j] == x;
    pre, post := b[..j], b[j + 1..];
    assert b == pre + [x] + post && a == [x] + a[1..];
    assert multiset(b) == multiset{x} + (multiset(pre) + multiset(post));
    assert multiset(a) == multiset{x} + multiset(a[1..]);
    MultisetCancel(x, multiset(a[1..]), multiset(pre) + multiset(post));
    assert multiset(pre + post) == multiset(pre) + multiset(post);
  }

  /** Sums, counts and newest cursors do not depend on the order of the items. */
  lemma {:induction false} OrderIrrelevant(a: seq<AdjustItem>, b: seq<AdjustItem>, k: BalanceKey, floor: int)
    requires multiset(a) == multiset(b)
    ensures SumFor(a, k) == SumFor(b, k)
    ensures CountFor(a, k) == CountFor(b, k)
    ensures NewestCursor(a, k, floor) == NewestCursor(b, k, floor)
    decreases |a|
  {
    if a == [] {
      assert |multiset(a)| == |multiset(b)|;
    } else {
      var x := a[0];
      var pre, post := Locate(a, b);
      OrderIrrelevant(a[1..], pre + post, k, if x.key == k then Max(floor, x.cursor) else floor);
      SplitSums(pre + [x], post, k);
      SplitSums(pre, [x], k);
      SplitSums(pre, post, k);
      NewestCursorInsert(pre, x, post, k, floor);
    }
  }

  /** The bulk statement sees only which items there are and how many per key. */
  lemma SameOutcomes(b: Balances, items: seq<AdjustItem>, other: seq<AdjustItem>, b': Balances)
    requires forall it :: it in items <==> it in other
    requires forall k :: CountFor(items, k) == CountFor(other, k)
    ensures BulkAdjusted(b, items, b') <==> BulkAdjusted(b, other, b')
  {
    assert forall k :: Mentions(items, k) <==> Mentions(other, k);
    forall k ensures RowAdjusted(Row(b, k), items, k, Row(b', k)) <==> RowAdjusted(Row(b, k), other, k, Row(b', k)) {
    }
  }

  /** The outcomes of the bulk statement do not depend on the order of the unnested arrays. */
  lemma BulkOrderIrrelevant(b: Balances, items: seq<AdjustItem>, order: seq<AdjustItem>, b': Balances)
    requires multiset(order) == multiset(items)
    ensures BulkAdjusted(b, items, b') <==> BulkAdjusted(b, order, b')
  {
    assert forall x :: x in items <==> x in multiset(items);
    assert forall x :: x in order <==> x in multiset(order);
    forall k ensures CountFor(order, k) == CountFor(items, k) { OrderIrrelevant(order, items, k, 0); }
    SameOutcomes(b, items, order, b');
  }

  // ----- The bulk statement against adjusting item by item -----

  lemma RowOutcomeUnique(before: Option<Balance>, items: seq<AdjustItem>, k: BalanceKey, after: Option<Balance>)
    requires CountFor(items, k) <= 1
    ensures RowAdjusted(before, items, k, after) <==> after == RowAfter(before, items, k)
  {
    CountForMentions(items, k);
    if Mentions(items, k) {
      var it :| it in items && it.key == k;
      LoneItem(before, items, k, it);
      forall x | x in items && x.key == k ensures RowAfter(before, items, k) == Some(Applied(before, x)) {
        LoneItem(before, items, k, x);
      }
    } else {
      UnmentionedRow(before, items, k);
    }
  }

  lemma SameRows(a: Balances, b: Balances)
    requires forall k :: Row(a, k) == Row(b, k)
    ensures a == b
  {
    assert forall k :: (k in a <==> Row(a, k).Some?) && (k in b <==> Row(b, k).Some?);
    assert a.Keys == b.Keys;
    forall k | k in a ensures a[k] == b[k] { assert Row(a, k) == Row(b, k); }
  }

  /**
   * On distinct keys the bulk statement succeeds with exactly one outcome: folding AdjustBalanceTx
   * over the list, in whatever order.
   */
  lemma BulkIsAdditiveOnDistinctKeys(b: Balances, items: seq<AdjustItem>, order: seq<AdjustItem>, b': Balances)
    requires DistinctKeys(items) && multiset(order) == multiset(items)
    ensures BulkAdjusted(b, items, b') <==> b' == AdjustAll(b, order)
  {
    BulkOrderIrrelevant(b, items, order, b');
    forall k
      ensures RowAdjusted(Row(b, k), order, k, Row(b', k)) <==> Row(b', k) == Row(AdjustAll(b, order), k)
    {
      OrderIrrelevant(order, items, k, 0);
      RowOutcomeUnique(Row(b, k), order, k, Row(b', k));
      AdjustAllRow(b, order, k);
    }
    if BulkAdjusted(b, items, b') { SameRows(b', AdjustAll(b, order)); }
  }

  /** What the bulk statement loses under `k`: nothing for a lone item, otherwise all items but one. */
  lemma BulkLoss(b: Balances, items: seq<AdjustItem>, b': Balances, k: BalanceKey)
    requires BulkAdjusted(b, items, b')
    ensures CountFor(items, k) <= 1 ==> Lost(b, items, b', k) == 0
    ensures CountFor(items, k) > 0 ==>
              exists it | it in items :: it.key == k && Lost(b, items, b', k) == SumFor(items, k) - it.delta
  {
    CountForMentions(items, k);
    assert RowAdjusted(Row(b, k), items, k, Row(b', k));
    if Mentions(items, k) {
      var it :| it in items && it.key == k && Row(b', k) == Some(Applied(Row(b, k), it));
      if CountFor(items, k) <= 1 { LoneItem(Row(b, k), items, k, it); }
    } else {
      UnmentionedRow(Row(b, k), items, k);
    }
  }

  lemma AdjustedLoss(mode: Mode, b: Balances, items: seq<AdjustItem>, b': Balances, k: BalanceKey)
    requires Adjusted(mode, b, items, b')
    ensures mode == PerRow || CountFor(items, k) <= 1 ==> Lost(b, items, b', k) == 0
  {
    if mode == PerRow { AdjustAllAmount(b, items, k); } else { BulkLoss(b, items, b', k); }
  }

  ghost predicate AllZero(items: seq<AdjustItem>, k: BalanceKey) {
    forall it | it in items && it.key == k :: it.delta == 0
  }

  /** The database may pick any of the items for an existing row. */
  lemma AnyPick(b: Balances, items: seq<AdjustItem>, b0: Balances, it: AdjustItem)
    requires BulkAdjusted(b, items, b0) && it in items && it.key in b
    ensures BulkAdjusted(b, items, b0[it.key := Applied(Row(b, it.key), it)])
  {
    var b1 := b0[it.key := Applied(Row(b, it.key), it)];
    forall k ensures RowAdjusted(Row(b, k), items, k, Row(b1, k)) {
      assert RowAdjusted(Row(b, k), items, k, Row(b0, k));
      if k == it.key { assert Mentions(items, k); }
    }
  }

  /** Whatever rows the database picks, the bulk statement adds everything. */
  ghost predicate LossFree(b: Balances, items: seq<AdjustItem>) {
    forall b', k | BulkAdjusted(b, items, b') :: Lost(b, items, b', k) == 0
  }

  /** No key has two items, unless all its deltas are zero. */
  ghost predicate Separate(items: seq<AdjustItem>) {
    forall k :: CountFor(items, k) <= 1 || AllZero(items, k)
  }

  /** When the bulk statement can be trusted to add everything, exactly. */
  lemma BulkExactlyAdditive(b: Balances, items: seq<AdjustItem>, b0: Balances)
    requires BulkAdjusted(b, items, b0)
    ensures LossFree(b, items) <==> Separate(items)
  {
    if Separate(items) {
      forall b', k | BulkAdjusted(b, items, b') ensures Lost(b, items, b', k) == 0 {
        BulkLoss(b, items, b', k);
        if AllZero(items, k) { SumForEqual(items, k, 0); }
      }
    }
    if LossFree(b, items) {
      forall k | CountFor(items, k) > 1 ensures AllZero(items, k) { LossFreeIsZero(b, items, b0, k); }
    }
  }

  lemma LossFreeIsZero(b: Balances, items: seq<AdjustItem>, b0: Balances, k: BalanceKey)
    requires BulkAdjusted(b, items, b0) && CountFor(items, k) > 1
    requires LossFree(b, items)
    ensures AllZero(items, k)
  {
    CountForMentions(items, k);
    assert RowAdjusted(Row(b, k), items, k, Row(b0, k));
    var sum := SumFor(items, k);
    forall it | it in items && it.key == k ensures it.delta == sum {
      AnyPick(b, items, b0, it);
      assert Lost(b, items, b0[k := Applied(Row(b, k), it)], k) == 0;
    }
    SumForEqual(items, k, sum);
    var n := CountFor(items, k);
    assert (n - 1) * sum == 0;
  }
}
