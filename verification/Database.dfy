/** The serving tables as an object that transactions update in place. */
module Database {
  import opened Sums
  import opened Ledger
  import opened EventStore
  import opened BalanceStore
  import opened EventBuilder
  import opened EventBuilderLaws
  import opened LedgerSteps
  import opened PurgeForms
  import opened Paging

  /** Every row the bulk statement would insert is inserted once. */
  ghost predicate Insertable(b: Balances, items: seq<AdjustItem>) {
    forall k | k !in b :: CountFor(items, k) <= 1
  }

  lemma OutcomeMeansInsertable(b: Balances, items: seq<AdjustItem>, b': Balances)
    requires BulkAdjusted(b, items, b')
    ensures Insertable(b, items)
  {
    forall k | k !in b ensures CountFor(items, k) <= 1 {
      assert RowAdjusted(Row(b, k), items, k, Row(b', k));
      CountForMentions(items, k);
    }
  }

  lemma MentionsExtend(items: seq<AdjustItem>, it: AdjustItem, k: BalanceKey)
    ensures Mentions(items + [it], k) <==> Mentions(items, k) || it.key == k
    ensures CountFor(items + [it], k) == CountFor(items, k) + if it.key == k then 1 else 0
    ensures Mentions(items, k) <==> CountFor(items, k) > 0
  {
    SplitSums(items, [it], k);
    CountForMentions(items, k);
    CountForMentions(items + [it], k);
  }

  /** The next item leaves its row as an earlier item left it, or applies itself instead. */
  lemma RowAdjustedExtend(b: Balances, items: seq<AdjustItem>, it: AdjustItem, mid: Balances, b': Balances)
    requires BulkAdjusted(b, items, mid)
    requires b' == mid[it.key := Applied(Row(b, it.key), it)] || (b' == mid && Mentions(items, it.key))
    requires it.key !in b ==> !Mentions(items, it.key)
    ensures BulkAdjusted(b, items + [it], b')
  {
    forall k ensures RowAdjusted(Row(b, k), items + [it], k, Row(b', k)) {
      MentionsExtend(items, it, k);
      assert RowAdjusted(Row(b, k), items, k, Row(mid, k));
      assert forall x | x in items :: x in items + [it];
      assert it in items + [it];
      if k != it.key { assert Row(b', k) == Row(mid, k); }
    }
  }

  lemma OutcomeKeepsRows(b: Balances, items: seq<AdjustItem>, b': Balances)
    requires BulkAdjusted(b, items, b')
    ensures forall k | k in b :: k in b'
  {
    forall k | k in b ensures k in b' { assert RowAdjusted(Row(b, k), items, k, Row(b', k)); }
  }

  /** When one of two calls by kind must fail, so must the call with all items. */
  lemma NotInsertable(b: Balances, mid: Balances, items: seq<AdjustItem>, kind: BalanceType)
    requires forall k | k in b :: k in mid
    requires !Insertable(mid, OfKind(items, kind))
    ensures !Insertable(b, items)
  {
    var k :| k !in mid && CountFor(OfKind(items, kind), k) > 1;
    OfKindCounts(items, kind, k);
  }

  /** The three places where the writes of a batch can fail, for the deltas taken in the order `keys`. */
  ghost predicate WritableBy(l: Tables, b: Batch, denied: set<string>, keys: seq<AdjustKey>) {
    var r := BuildOf(l, b, denied);
    && r.Some?
    && Enumerates(keys, r.value.deltas.Keys)
    && BulkUpsert(l.events, r.value.models).Some?
    && Insertable(l.balances, Items(keys, r.value.deltas))
  }

  /** `seen` holds the keys of the items. */
  ghost predicate Seen(items: seq<AdjustItem>, seen: set<BalanceKey>) {
    forall k :: k in seen <==> Mentions(items, k)
  }

  lemma SeenExtend(items: seq<AdjustItem>, seen: set<BalanceKey>, it: AdjustItem)
    requires Seen(items, seen)
    ensures Seen(items + [it], seen + {it.key})
  {
    forall k ensures k in seen + {it.key} <==> Mentions(items + [it], k) { MentionsExtend(items, it, k); }
  }

  lemma SecondMention(before: seq<AdjustItem>, it: AdjustItem, after: seq<AdjustItem>)
    requires Mentions(before, it.key)
    ensures CountFor(before + [it] + after, it.key) > 1
  {
    MentionsExtend(before, it, it.key);
    SplitSums(before + [it], after, it.key);
  }

  lemma MentionedTwice(items: seq<AdjustItem>, n: nat)
    requires n < |items| && Mentions(items[..n], items[n].key)
    ensures CountFor(items, items[n].key) > 1
  {
    SecondMention(items[..n], items[n], items[n + 1..]);
    assert items == items[..n] + [items[n]] + items[n + 1..];
  }

  lemma NextChunk(es: seq<BalanceEvent>, i: nat, end: nat)
    requires i <= end <= |es|
    ensures es[i..][..end - i] == es[i..end] && es[i..][end - i..] == es[end..]
  {
  }

  ghost predicate RealIds(t: EventTable) {
    forall i | i in t :: i > NIL_UUID
  }

  lemma PromotedIsValid(t: EventTable, upTo: int)
    requires Unique(t) && RealIds(t)
    ensures
      var promoted := WithApplied(Finalised(t, upTo), Promotable(Finalised(t, upTo), upTo));
      Unique(promoted) && RealIds(promoted)
  {
    var finalised := Finalised(t, upTo);
    var promoted := WithApplied(finalised, Promotable(finalised, upTo));
    assert forall i | i in promoted :: i in t && promoted[i].eventId == t[i].eventId;
  }

  datatype PurgeOutcome =
    | FinalizedBlock
    | Preview(events: nat, transactions: nat, blocks: nat, newWatermark: int)
    | PurgeFailed
    | PurgeDone(events: nat, transactions: nat, blocks: nat, reversed: nat, newWatermark: int)

  class Store {
    var events: EventTable
    var balances: Balances
    var transactions: map<string, int>
    var blocks: map<int, Block>
    var watermark: Option<int>

    function State(): Tables
      reads this
    {
      Tables(events, balances, transactions, blocks, watermark)
    }

    ghost predicate Valid()
      reads this
    {
      Unique(events) && RealIds(events)
    }

    constructor ()
      ensures State() == Tables(map[], map[], map[], map[], None) && Valid()
    {
      events, balances, transactions, blocks, watermark := map[], map[], map[], map[], None;
    }

    /** Roll back to the state in which the transaction began. */
    method Restore(l: Tables)
      modifies this
      ensures State() == l
    {
      events, balances, transactions, blocks, watermark := l.events, l.balances, l.transactions, l.blocks, l.watermark;
    }

    /** UpsertTx: one event; an empty event id is refused before the statement runs. */
    method UpsertTx(e: BalanceEvent) returns (ok: bool)
      requires Valid() && e.id > NIL_UUID
      modifies this`events
      ensures Valid()
      ensures ok <==> e.eventId != "" && Upsert(old(events), e).Some?
      ensures ok ==> Some(events) == Upsert(old(events), e)
      ensures !ok ==> events == old(events)
    {
      if e.eventId == "" { return false; }
      if !Named(events, e.eventId) {
        if e.id in events { return false; }
        events := events[e.id := e];
      } else {
        var row :| row in events && events[row].eventId == e.eventId;
        assert row == ConflictRow(events, e);
        if Wins(events[row], e) { events := events[row := Merge(events[row], e)]; }
      }
      return true;
    }

    /** One multi-row INSERT .. ON CONFLICT: row after row, never writing a row twice. */
    method UpsertRows(es: seq<BalanceEvent>) returns (ok: bool)
      requires Valid() && forall e | e in es :: e.id > NIL_UUID
      modifies this`events
      ensures Valid()
      ensures UpsertStatement(old(events), es, {}) == if ok then Some(events) else None
    {
      var touched: set<Uuid> := {};
      for i := 0 to |es|
        invariant Valid()
        invariant UpsertStatement(old(events), es, {}) == UpsertStatement(events, es[i..], touched)
      {
        var e := es[i];
        assert e in es && es[i..][0] == e && es[i..][1..] == es[i + 1..];
        if !Named(events, e.eventId) {
          if e.id in events { return false; }
          events, touched := events[e.id := e], touched + {e.id};
        } else {
          var row :| row in events && events[row].eventId == e.eventId;
          assert row == ConflictRow(events, e);
          if row in touched { return false; }
          if Wins(events[row], e) {
            events, touched := events[row := Merge(events[row], e)], touched + {row};
          }
        }
      }
      return true;
    }

    /** BulkUpsertTx: one statement for a small batch, otherwise a statement per chunk. */
    method BulkUpsertTx(es: seq<BalanceEvent>) returns (ok: bool)
      requires Valid() && forall e | e in es :: e.id > NIL_UUID
      modifies this`events
      ensures Valid()
      ensures BulkUpsert(old(events), es) == if ok then Some(events) else None
    {
      if |es| <= SMALL_BATCH {
        ok := UpsertRows(es);
        return;
      }
      var i := 0;
      while i < |es|
        invariant 0 <= i <= |es| && Valid()
        invariant UpsertChunks(old(events), es) == UpsertChunks(events, es[i..])
      {
        var end := i + BULK_CHUNK;
        if end > |es| { end := |es|; }
        NextChunk(es, i, end);
        var inserted := UpsertRows(es[i..end]);
        if !inserted { return false; }
        i := end;
      }
      return true;
    }

    /** BulkAdjustBalanceTx: whichever of the joined items the database applies to an existing row. */
    method BulkAdjustBalanceTx(items: seq<AdjustItem>) returns (ok: bool)
      modifies this`balances
      ensures ok <==> Insertable(old(balances), items)
      ensures ok ==> BulkAdjusted(old(balances), items, balances)
      ensures !ok ==> balances == old(balances)
    {
      var was := balances;
      var seen: set<BalanceKey> := {};
      assert BulkAdjusted(was, items[..0], balances);
      for i := 0 to |items|
        invariant BulkAdjusted(was, items[..i], balances)
        invariant Seen(items[..i], seen)
      {
        var it := items[i];
        ghost var mid := balances;
        assert items[..i + 1] == items[..i] + [it];
        SeenExtend(items[..i], seen, it);
        if it.key in seen && it.key !in was {
          MentionedTwice(items, i);
          balances := was;
          return false;
        }
        var pick := it.key !in seen;
        if * { pick := true; }
        if pick {
          balances := balances[it.key := Applied(Row(was, it.key), it)];
        }
        RowAdjustedExtend(was, items[..i], it, mid, balances);
        seen := seen + {it.key};
      }
      assert items[..|items|] == items;
      OutcomeMeansInsertable(was, items, balances);
      return true;
    }

    /** UpdateWatermarkTx: an insert, or GREATEST of the stored and the offered sequence. */
    method UpdateWatermarkTx(sequence: int)
      modifies this`watermark
      ensures watermark == Advanced(old(watermark), sequence)
      ensures old(watermark).Some? ==> watermark.value >= old(watermark).value
    {
      watermark := match watermark case Some(w) => Some(Max(w, sequence)) case None => Some(sequence);
    }

    method RewindWatermarkTx(sequence: int)
      modifies this`watermark
      ensures watermark == Some(sequence)
    {
      watermark := Some(sequence);
    }

    /** Phases 2 to 4 of a batch, up to the commit. A failure leaves the transaction to be rolled back. */
    method WriteBatch(b: Batch, denied: set<string>)
      returns (ok: bool, learned: set<string>, ghost keys: seq<AdjustKey>)
      requires Valid() && forall e | e in b.events :: e.id > NIL_UUID
      modifies this
      ensures Valid()
      ensures learned == Learned(old(State()), b, denied)
      ensures BuildOf(old(State()), b, denied).Some? ==>
        Enumerates(keys, BuildOf(old(State()), b, denied).value.deltas.Keys)
      ensures ok ==> IngestCommits(BulkStatement, old(State()), b, denied, keys, State())
      ensures ok <==> WritableBy(old(State()), b, denied, keys)
    {
      keys := [];
      var r;
      r, learned := BuildEventModels(b, Prefetch(balances, b), denied);
      if r.None? { return false, learned, keys; }
      var order := Enumerate(r.value.deltas.Keys);
      keys := order;
      ModelIds(b, Start(balances, b, denied), b.events);
      var stored := BulkUpsertTx(r.value.models);
      if !stored { return false, learned, keys; }
      var items := CollectItems(order, r.value.deltas);
      var adjusted := BulkAdjustBalanceTx(items);
      if !adjusted { return false, learned, keys; }
      transactions := b.transactions + transactions;
      blocks := blocks + b.blocks;
      UpdateWatermarkTx(b.newSequence);
      return true, learned, keys;
    }

    /** handleFinalityPromotion as one transaction. */
    method PromoteFinality(upTo: int) returns (committed: bool, ghost order: seq<Uuid>)
      requires Valid()
      modifies this
      ensures Valid() && Enumerates(order, Promotable(Finalised(old(events), upTo), upTo))
      ensures committed <==> Insertable(old(balances), Promotions(Rows(order, Finalised(old(events), upTo))))
      ensures committed ==> PromoteCommits(BulkStatement, old(State()), upTo, order, State())
      ensures !committed ==> State() == old(State())
    {
      var before := State();
      var finalised := Finalised(events, upTo);
      var promotable := Promotable(finalised, upTo);
      var rows := Enumerate(promotable);
      order := rows;
      var items := BuildPromotionAdjustItems(Rows(rows, finalised));
      PromotedIsValid(events, upTo);
      events, blocks := WithApplied(finalised, promotable), FinalisedBlocks(blocks, upTo);
      committed := BulkAdjustBalanceTx(items);
      if !committed { Restore(before); }
    }

    /** The deletes of a purge, and the unconditional rewind. */
    method DeleteFrom(fromBlock: int) returns (gone: nat, goneTransactions: nat, goneBlocks: nat, rewound: int)
      requires Valid()
      modifies this`events, this`transactions, this`blocks, this`watermark
      ensures Valid() && State() == Purged(old(State()), fromBlock, balances)
      ensures gone == |old(events)| - |events| && goneTransactions == |old(transactions)| - |transactions|
      ensures goneBlocks == |old(blocks)| - |blocks|
      ensures watermark == Some(rewound) && rewound == if fromBlock > 0 then fromBlock - 1 else 0
    {
      var before := State();
      events := events - From(events, fromBlock);
      transactions := TransactionsBefore(transactions, fromBlock);
      blocks := BlocksBefore(blocks, fromBlock);
      rewound := if fromBlock - 1 < 0 then 0 else fromBlock - 1;
      RewindWatermarkTx(rewound);
      FewerKeys(before.events, events);
      FewerKeys(before.transactions, transactions);
      FewerKeys(before.blocks, blocks);
      gone, goneTransactions, goneBlocks :=
        |before.events| - |events|, |before.transactions| - |transactions|, |before.blocks| - |blocks|;
    }

    /** The inline rollback of handleReorg as one transaction. */
    method RollBackInline(fork: int) returns (committed: bool, ghost order: seq<Uuid>)
      requires Valid()
      modifies this
      ensures Valid() && Enumerates(order, From(old(events), fork))
      ensures committed <==> Insertable(old(balances), Reversals(Rows(order, old(events))))
      ensures committed ==> PurgeCommits(BulkStatement, old(State()), fork, order, State())
      ensures committed ==> watermark == Some(if fork > 0 then fork - 1 else 0)
      ensures !committed ==> State() == old(State())
    {
      var rows := Enumerate(From(events, fork));
      order := rows;
      var items := BuildReversalAdjustItems(Rows(rows, events));
      committed := BulkAdjustBalanceTx(items);
      if !committed { return; }
      var _, _, _, _ := DeleteFrom(fork);
    }

    /** Steps 1 and 2 of executePurge: read the rows page by page, reverse the liquid and then the staked deltas. */
    method ReversePaged(fromBlock: int) returns (ok: bool, reversed: nat, ghost order: seq<Uuid>)
      requires Valid()
      modifies this`balances
      ensures Ascending(order) && Enumerates(order, From(events, fromBlock))
      ensures ok ==> BulkAdjusted(old(balances), Reversals(Rows(order, events)), balances)
      ensures ok <==> Insertable(old(balances), Reversals(Rows(order, events)))
      ensures !ok ==> balances == old(balances)
      ensures reversed == |OfKind(Reversals(Rows(order, events)), Liquid)|
    {
      var was := balances;
      var rows := FetchRollbackEvents(events, fromBlock);
      order := rows;
      PagingCoversPurge(events, fromBlock);
      ghost var items := Reversals(Rows(rows, events));
      var liquid, staked := SplitReversals(Rows(rows, events));
      reversed := |liquid|;
      ok := BulkAdjustBalanceTx(liquid);
      if !ok {
        NotInsertable(was, was, items, Liquid);
        return;
      }
      ghost var mid := balances;
      OutcomeKeepsRows(was, liquid, mid);
      ok := BulkAdjustBalanceTx(staked);
      if !ok {
        NotInsertable(was, mid, items, Staked);
        balances := was;
      } else {
        TwoCallsAreOne(was, items, mid, balances);
        OutcomeMeansInsertable(was, items, balances);
      }
    }

    /** executePurge as one transaction: paged read, two bulk reversals, deletes, watermark rewind. */
    method ExecutePurge(fromBlock: int) returns (r: PurgeOutcome, ghost order: seq<Uuid>)
      requires Valid()
      modifies this
      ensures Valid() && (r.PurgeDone? || r.PurgeFailed?)
      ensures Ascending(order) && Enumerates(order, From(old(events), fromBlock))
      ensures r.PurgeDone? <==> Insertable(old(balances), Reversals(Rows(order, old(events))))
      ensures r.PurgeDone? ==>
        && PurgeCommits(BulkStatement, old(State()), fromBlock, order, State())
        && r.events == |old(events)| - |events|
        && r.transactions == |old(transactions)| - |transactions|
        && r.blocks == |old(blocks)| - |blocks|
        && r.reversed == |OfKind(Reversals(Rows(order, old(events))), Liquid)|
        && watermark == Some(r.newWatermark)
        && r.newWatermark == (if fromBlock > 0 then fromBlock - 1 else 0)
      ensures r.PurgeFailed? ==> State() == old(State())
    {
      var ok, reversed;
      ok, reversed, order := ReversePaged(fromBlock);
      if !ok { return PurgeFailed, order; }
      var gone, goneTransactions, goneBlocks, rewound := DeleteFrom(fromBlock);
      r := PurgeDone(gone, goneTransactions, goneBlocks, reversed, rewound);
    }

    /** PurgeFromBlock: the finality guard, the read-only preview, or the purge. */
    method PurgeFromBlock(fromBlock: int, dryRun: bool, force: bool) returns (r: PurgeOutcome, ghost order: seq<Uuid>)
      requires Valid()
      modifies this
      ensures Valid()
      ensures r.FinalizedBlock? <==> !force && fromBlock in old(blocks) && old(blocks)[fromBlock].finality == Finalized
      ensures r.Preview? <==> !r.FinalizedBlock? && dryRun
      ensures r.Preview? ==>
        && r.events == |From(events, fromBlock)|
        && r.transactions == |set h | h in transactions && transactions[h] >= fromBlock|
        && r.blocks == |set n | n in blocks && n >= fromBlock|
        && r.newWatermark == (if fromBlock > 0 then fromBlock - 1 else 0)
      ensures r.PurgeDone? || r.PurgeFailed? ==> Enumerates(order, From(old(events), fromBlock))
      ensures r.PurgeDone? || r.PurgeFailed? ==>
        (r.PurgeDone? <==> Insertable(old(balances), Reversals(Rows(order, old(events)))))
      ensures r.PurgeDone? ==> PurgeCommits(BulkStatement, old(State()), fromBlock, order, State())
      ensures !r.PurgeDone? ==> State() == old(State())
    {
      order := [];
      if !force && fromBlock in blocks && blocks[fromBlock].finality == Finalized { return FinalizedBlock, order; }
      if dryRun {
        return Preview(|From(events, fromBlock)|,
                       |set h | h in transactions && transactions[h] >= fromBlock|,
                       |set n | n in blocks && n >= fromBlock|, RewindTo(fromBlock)), order;
      }
      r, order := ExecutePurge(fromBlock);
    }
  }

  /** The items of the aggregated deltas, in the order a map iteration yields its keys. */
  method CollectItems(order: seq<AdjustKey>, deltas: map<AdjustKey, AdjustAccum>) returns (items: seq<AdjustItem>)
    requires Enumerates(order, deltas.Keys)
    ensures items == Items(order, deltas)
  {
    items := [];
    for i := 0 to |order|
      invariant forall ak | ak in order[..i] :: ak in deltas
      invariant items == Items(order[..i], deltas)
    {
      assert order[i] in deltas && order[..i + 1][..i] == order[..i];
      items := items + [ItemOf(order[i], deltas[order[i]])];
    }
    assert order[..|order|] == order;
  }

  /** A model carries the id of the event it was built from. */
  lemma {:induction false} ModelIds(b: Batch, s: Build, events: seq<DecodedEvent>)
    requires forall e | e in events :: e.id > NIL_UUID
    requires forall m | m in s.models :: m.id > NIL_UUID
    ensures BuildAll(b, s, events).Some? ==> forall m | m in BuildAll(b, s, events).value.models :: m.id > NIL_UUID
    decreases |events|
  {
    if events != [] {
      assert events[0] in events && forall e | e in events[1..] :: e in events;
      match Step(b, s, events[0])
      case None =>
      case Some(s') => ModelIds(b, s', events[1..]);
    }
  }

  lemma FewerKeys<K, V>(a: map<K, V>, b: map<K, V>)
    requires b.Keys <= a.Keys
    ensures |b| <= |a|
  {
    assert a.Keys == b.Keys + (a.Keys - b.Keys);
    assert |a.Keys| == |b.Keys| + |a.Keys - b.Keys|;
    assert |a| == |a.Keys| && |b| == |b.Keys|;
  }
}
