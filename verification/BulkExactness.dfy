/** When promotions and forward ingests survive the bulk balance statement, exactly. */
module BulkExactness {
  import opened Sums
  import opened Ledger
  import opened BalanceStore
  import opened EventBuilder
  import opened EventBuilderLaws
  import opened LedgerSteps
  import opened LedgerRuns
  import opened PurgeForms

  /** Every outcome of the transaction keeps the ledger balanced, whatever rows the database picks. */
  ghost predicate AlwaysKept(l: Tables, a: Action) {
    forall l' | Next(BulkStatement, l, a, l') :: Balanced(l')
  }

  // ----- Promotion -----

  function Negated(items: seq<AdjustItem>): seq<AdjustItem> {
    seq(|items|, i requires 0 <= i < |items| => items[i].(delta := -items[i].delta))
  }

  lemma {:induction false} NegatedCount(items: seq<AdjustItem>, k: BalanceKey)
    ensures CountFor(Negated(items), k) == CountFor(items, k)
    decreases |items|
  {
    if items != [] {
      NegatedCount(items[1..], k);
      assert Negated(items)[1..] == Negated(items[1..]);
    }
  }

  lemma NegatedZero(items: seq<AdjustItem>, k: BalanceKey)
    ensures AllZero(Negated(items), k) <==> AllZero(items, k)
  {
    var negated := Negated(items);
    if AllZero(items, k) {
      forall it | it in negated && it.key == k ensures it.delta == 0 {
        var i :| 0 <= i < |negated| && negated[i] == it;
        assert items[i] in items;
      }
    }
    if AllZero(negated, k) {
      forall it | it in items && it.key == k ensures it.delta == 0 {
        var i :| 0 <= i < |items| && items[i] == it;
        assert negated[i] in negated;
      }
    }
  }

  lemma NegatedSeparate(items: seq<AdjustItem>)
    ensures Separate(Negated(items)) <==> Separate(items)
  {
    forall k
      ensures CountFor(Negated(items), k) == CountFor(items, k)
      ensures AllZero(Negated(items), k) <==> AllZero(items, k)
    {
      NegatedCount(items, k);
      NegatedZero(items, k);
    }
  }

  lemma NegatedConcat(a: seq<AdjustItem>, b: seq<AdjustItem>)
    ensures Negated(a + b) == Negated(a) + Negated(b)
  {
  }

  lemma PromotionReverse(e: BalanceEvent)
    ensures PromotionOf(e) == Negated(ReversalOf(e.(applied := true)))
  {
    NegatedConcat([Item(e, Liquid, -e.delta)], [Item(e, Staked, e.delta)]);
  }

  /** Promoting events adds exactly what reversing them, once promoted, would take away. */
  lemma {:induction false} PromotionsReverse(es: seq<BalanceEvent>)
    ensures Promotions(es) == Negated(Reversals(AllApplied(es)))
    decreases |es|
  {
    if es != [] {
      var n := |es| - 1;
      PromotionsReverse(es[..n]);
      assert AllApplied(es)[..n] == AllApplied(es[..n]);
      PromotionReverse(es[n]);
      NegatedConcat(Reversals(AllApplied(es[..n])), ReversalOf(es[n].(applied := true)));
    }
  }

  /** The rows a promotion up to the block will apply, read off the table it starts from. */
  function ToPromote(t: EventTable, upTo: int): set<Uuid> {
    set i | i in t && t[i].cursor <= upTo && !t[i].applied && t[i].finality != Unset
  }

  predicate SameBalance(e: BalanceEvent, f: BalanceEvent) {
    e.address == f.address && e.token == f.token
  }

  /** Two of the rows share an address and token only if they move nothing. */
  ghost predicate OnePerBalance(t: EventTable, s: set<Uuid>) {
    forall i, j | i in s && j in s && i in t && j in t && i != j && SameBalance(t[i], t[j]) :: t[i].delta == 0
  }

  lemma PromotedRows(t: EventTable, upTo: int)
    ensures
      var f := Finalised(t, upTo);
      var s := Promotable(f, upTo);
      s == ToPromote(t, upTo) && (Reversible(WithApplied(f, s), s) <==> OnePerBalance(t, s))
  {
    var f := Finalised(t, upTo);
    var s := Promotable(f, upTo);
    forall i | i in s
      ensures i in t && WithApplied(f, s)[i].applied && WithApplied(f, s)[i].delta == t[i].delta
      ensures WithApplied(f, s)[i].address == t[i].address && WithApplied(f, s)[i].token == t[i].token
    {
    }
  }

  /** A bulk promotion is safe if and only if no two rows to be promoted share an address and token with a delta. */
  lemma BulkPromotionIsExact(l: Tables, upTo: int, order: seq<Uuid>, l0: Tables)
    requires Balanced(l) && PromoteCommits(BulkStatement, l, upTo, order, l0)
    ensures AlwaysKept(l, Promote(upTo, order)) <==> OnePerBalance(l.events, ToPromote(l.events, upTo))
  {
    PromotedRows(l.events, upTo);
    PromotionIsReversible(l, upTo, order, l0);
  }

  lemma PromotionIsReversible(l: Tables, upTo: int, order: seq<Uuid>, l0: Tables)
    requires Balanced(l) && PromoteCommits(BulkStatement, l, upTo, order, l0)
    ensures AlwaysKept(l, Promote(upTo, order)) <==> Reversible(l0.events, Promotable(Finalised(l.events, upTo), upTo))
  {
    var t := Finalised(l.events, upTo);
    var s := Promotable(t, upTo);
    var items := Promotions(Rows(order, t));
    PromotionsReverse(Rows(order, t));
    assert AllApplied(Rows(order, t)) == Rows(order, l0.events);
    NegatedSeparate(Reversals(Rows(order, l0.events)));
    ReversibleIsSeparate(l0.events, s, order);
    BulkExactlyAdditive(l.balances, items, l0.balances);
    PromotionLossFree(l, upTo, order, l0);
  }

  lemma PromotionLossFree(l: Tables, upTo: int, order: seq<Uuid>, l0: Tables)
    requires Balanced(l) && PromoteCommits(BulkStatement, l, upTo, order, l0)
    ensures AlwaysKept(l, Promote(upTo, order)) <==>
            LossFree(l.balances, Promotions(Rows(order, Finalised(l.events, upTo))))
  {
    var items := Promotions(Rows(order, Finalised(l.events, upTo)));
    if AlwaysKept(l, Promote(upTo, order)) {
      forall b', k | BulkAdjusted(l.balances, items, b') ensures Lost(l.balances, items, b', k) == 0 {
        var l' := l0.(balances := b');
        assert Next(BulkStatement, l, Promote(upTo, order), l');
        PromotionLaw(l, upTo, order, l', k);
        assert Drift(l', k) == 0 && Drift(l, k) == 0;
      }
    }
    if LossFree(l.balances, items) {
      forall l' | Next(BulkStatement, l, Promote(upTo, order), l') ensures Balanced(l') {
        forall k ensures Drift(l', k) == 0 {
          PromotionLaw(l, upTo, order, l', k);
          assert Drift(l, k) == 0;
        }
      }
    }
  }

  // ----- Forward ingest -----

  /** Two owners may share a balance in one batch only if neither moves it. */
  ghost predicate OneOwner(deltas: map<AdjustKey, AdjustAccum>) {
    forall a, b | a in deltas && b in deltas && a != b && a.key == b.key :: deltas[a].delta == 0
  }

  lemma {:induction false} ItemsAt(order: seq<AdjustKey>, deltas: map<AdjustKey, AdjustAccum>)
    requires forall n | 0 <= n < |order| :: order[n] in deltas
    ensures |Items(order, deltas)| == |order|
    ensures forall n | 0 <= n < |order| :: Items(order, deltas)[n] == ItemOf(order[n], deltas[order[n]])
    decreases |order|
  {
    if order != [] { ItemsAt(order[..|order| - 1], deltas); }
  }

  lemma {:induction false} CountTwo(items: seq<AdjustItem>, i: nat, j: nat)
    requires i < j < |items| && items[i].key == items[j].key
    ensures CountFor(items, items[i].key) > 1
    decreases |items|
  {
    if i == 0 {
      CountForMentions(items[1..], items[0].key);
      assert items[1..][j - 1] in items[1..];
    } else {
      CountTwo(items[1..], i - 1, j - 1);
    }
  }

  lemma {:induction false} AnotherItem(items: seq<AdjustItem>, i: nat) returns (j: nat)
    requires i < |items| && CountFor(items, items[i].key) > 1
    ensures j < |items| && j != i && items[j].key == items[i].key
    decreases |items|
  {
    if i > 0 && items[0].key == items[i].key {
      j := 0;
    } else if i > 0 {
      var n := AnotherItem(items[1..], i - 1);
      j := n + 1;
    } else {
      CountForMentions(items[1..], items[0].key);
      var it :| it in items[1..] && it.key == items[0].key;
      var n :| 0 <= n < |items[1..]| && items[1..][n] == it;
      j := n + 1;
    }
  }

  lemma OneOwnerMeansZero(keys: seq<AdjustKey>, deltas: map<AdjustKey, AdjustAccum>, i: nat)
    requires Enumerates(keys, deltas.Keys) && OneOwner(deltas) && i < |Items(keys, deltas)|
    requires CountFor(Items(keys, deltas), Items(keys, deltas)[i].key) > 1
    ensures Items(keys, deltas)[i].delta == 0
  {
    ItemsAt(keys, deltas);
    var j := AnotherItem(Items(keys, deltas), i);
    assert keys[i] != keys[j];
  }

  lemma ZeroMeansOneOwner(keys: seq<AdjustKey>, deltas: map<AdjustKey, AdjustAccum>, i: nat, j: nat)
    requires Enumerates(keys, deltas.Keys) && Separate(Items(keys, deltas))
    requires i < |keys| && j < |keys| && i != j && keys[i].key == keys[j].key
    ensures deltas[keys[i]].delta == 0
  {
    var items := Items(keys, deltas);
    ItemsAt(keys, deltas);
    if i < j { CountTwo(items, i, j); } else { CountTwo(items, j, i); }
    assert AllZero(items, items[i].key) && items[i] in items;
  }

  lemma OneOwnerIsSeparate(keys: seq<AdjustKey>, deltas: map<AdjustKey, AdjustAccum>)
    requires Enumerates(keys, deltas.Keys)
    ensures OneOwner(deltas) <==> Separate(Items(keys, deltas))
  {
    var items := Items(keys, deltas);
    if OneOwner(deltas) {
      forall k | CountFor(items, k) > 1 ensures AllZero(items, k) {
        forall it | it in items && it.key == k ensures it.delta == 0 {
          var i :| 0 <= i < |items| && items[i] == it;
          OneOwnerMeansZero(keys, deltas, i);
        }
      }
    }
    if Separate(items) {
      forall a, b | a in deltas && b in deltas && a != b && a.key == b.key ensures deltas[a].delta == 0 {
        assert a in keys && b in keys;
        var i :| 0 <= i < |keys| && keys[i] == a;
        var j :| 0 <= j < |keys| && keys[j] == b;
        ZeroMeansOneOwner(keys, deltas, i, j);
      }
    }
  }

  /** A fresh bulk ingest is safe if and only if no balance is shared by two owners with deltas in the batch. */
  lemma BulkIngestIsExact(l: Tables, b: Batch, denied: set<string>, keys: seq<AdjustKey>, l0: Tables)
    requires Balanced(l) && Unique(l.events) && IngestCommits(BulkStatement, l, b, denied, keys, l0)
    requires Fresh(l.events, BuildOf(l, b, denied).value.models)
    ensures AlwaysKept(l, Ingest(b, denied, keys)) <==> OneOwner(BuildOf(l, b, denied).value.deltas)
  {
    var r := BuildOf(l, b, denied).value;
    OneOwnerIsSeparate(keys, r.deltas);
    BulkExactlyAdditive(l.balances, Items(keys, r.deltas), l0.balances);
    IngestLossFree(l, b, denied, keys, l0);
  }

  lemma IngestDrift(l: Tables, b: Batch, denied: set<string>, keys: seq<AdjustKey>, l': Tables, k: BalanceKey)
    requires Balanced(l) && Unique(l.events) && IngestCommits(BulkStatement, l, b, denied, keys, l')
    requires Fresh(l.events, BuildOf(l, b, denied).value.models)
    ensures Drift(l', k) == -Lost(l.balances, Items(keys, BuildOf(l, b, denied).value.deltas), l'.balances, k)
  {
    IngestLaw(BulkStatement, l, b, denied, keys, l', k);
    FreshLeavesNoPhantom(l.events, BuildOf(l, b, denied).value.models, k);
    assert Drift(l, k) == 0;
  }

  lemma IngestLossFree(l: Tables, b: Batch, denied: set<string>, keys: seq<AdjustKey>, l0: Tables)
    requires Balanced(l) && Unique(l.events) && IngestCommits(BulkStatement, l, b, denied, keys, l0)
    requires Fresh(l.events, BuildOf(l, b, denied).value.models)
    ensures AlwaysKept(l, Ingest(b, denied, keys)) <==>
            LossFree(l.balances, Items(keys, BuildOf(l, b, denied).value.deltas))
  {
    var items := Items(keys, BuildOf(l, b, denied).value.deltas);
    if AlwaysKept(l, Ingest(b, denied, keys)) {
      forall b', k | BulkAdjusted(l.balances, items, b') ensures Lost(l.balances, items, b', k) == 0 {
        var l' := l0.(balances := b');
        assert Next(BulkStatement, l, Ingest(b, denied, keys), l');
        IngestDrift(l, b, denied, keys, l', k);
        assert Drift(l', k) == 0;
      }
    }
    if LossFree(l.balances, items) {
      forall l' | Next(BulkStatement, l, Ingest(b, denied, keys), l') ensures Balanced(l') {
        forall k ensures Drift(l', k) == 0 { IngestDrift(l, b, denied, keys, l', k); }
      }
    }
  }
}
