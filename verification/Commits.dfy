/** When the writes of a batch can take effect, whatever order the database sees its deltas in. */
module Commits {
  import opened Sums
  import opened Ledger
  import opened EventStore
  import opened BalanceStore
  import opened EventBuilder
  import opened EventBuilderLaws
  import opened LedgerSteps
  import opened BulkExactness
  import opened Database

  ghost predicate Writes(l: Tables, b: Batch, denied: set<string>, l': Tables) {
    exists keys :: IngestCommits(BulkStatement, l, b, denied, keys, l')
  }

  /** No balance row that is still to be inserted has two owners with deltas in the batch. */
  predicate OneOwnerPerNewRow(b: Balances, deltas: map<AdjustKey, AdjustAccum>) {
    forall x, y | x in deltas && y in deltas && x.key == y.key && x.key !in b :: x == y
  }

  /** The build succeeds, the events can be stored, and no new balance row is inserted twice. */
  ghost predicate Writable(l: Tables, b: Batch, denied: set<string>) {
    var r := BuildOf(l, b, denied);
    && r.Some?
    && BulkUpsert(l.events, r.value.models).Some?
    && OneOwnerPerNewRow(l.balances, r.value.deltas)
  }

  lemma TwoOwnersCount(keys: seq<AdjustKey>, deltas: map<AdjustKey, AdjustAccum>, x: AdjustKey, y: AdjustKey)
    requires Enumerates(keys, deltas.Keys) && x in deltas && y in deltas && x != y && x.key == y.key
    ensures CountFor(Items(keys, deltas), x.key) > 1
  {
    ItemsAt(keys, deltas);
    assert x in keys && y in keys;
    var i :| 0 <= i < |keys| && keys[i] == x;
    var j :| 0 <= j < |keys| && keys[j] == y;
    if i < j { CountTwo(Items(keys, deltas), i, j); } else { CountTwo(Items(keys, deltas), j, i); }
  }

  lemma CountedTwice(keys: seq<AdjustKey>, deltas: map<AdjustKey, AdjustAccum>, k: BalanceKey)
    requires Enumerates(keys, deltas.Keys) && CountFor(Items(keys, deltas), k) > 1
    ensures exists x, y :: x in deltas && y in deltas && x != y && x.key == y.key == k
  {
    var items := Items(keys, deltas);
    ItemsAt(keys, deltas);
    CountForMentions(items, k);
    var it :| it in items && it.key == k;
    var i :| 0 <= i < |items| && items[i] == it;
    var j := AnotherItem(items, i);
    assert keys[i] in deltas && keys[j] in deltas && keys[i] != keys[j];
  }

  /** Whether the deltas can be written does not depend on the order in which a map iteration yields them. */
  lemma InsertableInAnyOrder(b: Balances, keys: seq<AdjustKey>, deltas: map<AdjustKey, AdjustAccum>)
    requires Enumerates(keys, deltas.Keys)
    ensures Insertable(b, Items(keys, deltas)) <==> OneOwnerPerNewRow(b, deltas)
  {
    if Insertable(b, Items(keys, deltas)) {
      forall x, y | x in deltas && y in deltas && x.key == y.key && x.key !in b ensures x == y {
        if x != y { TwoOwnersCount(keys, deltas, x, y); }
      }
    }
    if OneOwnerPerNewRow(b, deltas) {
      forall k | k !in b ensures CountFor(Items(keys, deltas), k) <= 1 {
        if CountFor(Items(keys, deltas), k) > 1 { CountedTwice(keys, deltas, k); }
      }
    }
  }

  /** Items that insert no row twice have an outcome: apply the last item joined to each row. */
  lemma {:induction false} OutcomeExists(b: Balances, items: seq<AdjustItem>) returns (b': Balances)
    requires Insertable(b, items)
    ensures BulkAdjusted(b, items, b')
    decreases |items|
  {
    if items == [] {
      b' := b;
    } else {
      var init, it := items[..|items| - 1], items[|items| - 1];
      assert items == init + [it];
      forall k ensures k !in b ==> CountFor(init, k) <= 1 && (k == it.key ==> !Mentions(init, k)) {
        MentionsExtend(init, it, k);
      }
      var mid := OutcomeExists(b, init);
      b' := mid[it.key := Applied(Row(b, it.key), it)];
      RowAdjustedExtend(b, init, it, mid, b');
    }
  }

  lemma {:induction false} EnumerationExists<T>(s: set<T>) returns (order: seq<T>)
    ensures Enumerates(order, s)
    decreases |s|
  {
    if s == {} {
      order := [];
    } else {
      var x :| x in s;
      var rest := EnumerationExists(s - {x});
      order := rest + [x];
    }
  }

  lemma WritableInAnyOrder(l: Tables, b: Batch, denied: set<string>, keys: seq<AdjustKey>)
    requires BuildOf(l, b, denied).Some? ==> Enumerates(keys, BuildOf(l, b, denied).value.deltas.Keys)
    ensures WritableBy(l, b, denied, keys) <==> Writable(l, b, denied)
  {
    if BuildOf(l, b, denied).Some? { InsertableInAnyOrder(l.balances, keys, BuildOf(l, b, denied).value.deltas); }
  }

  lemma WriteExists(l: Tables, b: Batch, denied: set<string>) returns (l': Tables)
    requires Writable(l, b, denied)
    ensures Writes(l, b, denied, l')
  {
    var r := BuildOf(l, b, denied).value;
    var keys := EnumerationExists(r.deltas.Keys);
    InsertableInAnyOrder(l.balances, keys, r.deltas);
    var balances := OutcomeExists(l.balances, Items(keys, r.deltas));
    l' := Tables(BulkUpsert(l.events, r.models).value, balances, b.transactions + l.transactions,
                 l.blocks + b.blocks, Advanced(l.watermark, b.newSequence));
    assert IngestCommits(BulkStatement, l, b, denied, keys, l');
  }

  lemma WritesAreWritable(l: Tables, b: Batch, denied: set<string>, l': Tables)
    requires Writes(l, b, denied, l')
    ensures Writable(l, b, denied)
  {
    var keys :| IngestCommits(BulkStatement, l, b, denied, keys, l');
    var deltas := BuildOf(l, b, denied).value.deltas;
    OutcomeMeansInsertable(l.balances, Items(keys, deltas), l'.balances);
    InsertableInAnyOrder(l.balances, keys, deltas);
  }

  /** Some transaction can write the batch exactly when it builds, its events store, and no new row has two owners. */
  lemma WritableExactly(l: Tables, b: Batch, denied: set<string>)
    ensures Writable(l, b, denied) <==> exists l' :: Writes(l, b, denied, l')
  {
    if Writable(l, b, denied) {
      var l' := WriteExists(l, b, denied);
    }
    if exists l' :: Writes(l, b, denied, l') {
      var l' :| Writes(l, b, denied, l');
      WritesAreWritable(l, b, denied, l');
    }
  }
}
