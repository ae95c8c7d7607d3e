/** What each transaction does to the rows of every table, and where the next scan then begins. */
module TableLaws {
  import opened Sums
  import opened Ledger
  import opened BalanceStore
  import opened EventBuilder
  import opened EventBuilderLaws
  import opened LedgerSteps
  import opened BlockScan

  // ----- Purge and drift rollback -----

  /** A purge deletes exactly the events, transactions and blocks from its block on, and rewinds to the block before. */
  lemma PurgeRows(mode: Mode, l: Tables, fromBlock: int, order: seq<Uuid>, l': Tables)
    requires PurgeCommits(mode, l, fromBlock, order, l')
    ensures forall i :: i in l'.events <==> i in l.events && l.events[i].cursor < fromBlock
    ensures forall i | i in l'.events :: l'.events[i] == l.events[i]
    ensures forall h :: h in l'.transactions <==> h in l.transactions && l.transactions[h] < fromBlock
    ensures forall h | h in l'.transactions :: l'.transactions[h] == l.transactions[h]
    ensures forall n :: n in l'.blocks <==> n in l.blocks && n < fromBlock
    ensures forall n | n in l'.blocks :: l'.blocks[n] == l.blocks[n]
    ensures l'.watermark == Some(if fromBlock > 0 then fromBlock - 1 else 0)
  {
  }

  /** A drift rollback deletes the events of one watched address, or of all, and leaves transactions and blocks. */
  lemma RollBackRows(mode: Mode, l: Tables, watched: Option<Address>, fork: int, order: seq<Uuid>, l': Tables)
    requires RollBackCommits(mode, l, watched, fork, order, l')
    ensures forall i :: i in l'.events <==>
      i in l.events && (l.events[i].cursor < fork || (watched.Some? && l.events[i].watched != watched.value))
    ensures forall i | i in l'.events :: l'.events[i] == l.events[i]
    ensures l'.transactions == l.transactions && l'.blocks == l.blocks
    ensures l'.watermark == Some(if fork > 0 then fork - 1 else 0)
  {
  }

  /** A purge or drift rollback from the block. */
  ghost predicate Rewinds(mode: Mode, l: Tables, fromBlock: int, l': Tables) {
    || (exists order :: PurgeCommits(mode, l, fromBlock, order, l'))
    || (exists watched, order :: RollBackCommits(mode, l, watched, fromBlock, order, l'))
  }

  /** After a rewind from above block 1 the next job starts at the purged block, as long as its size allows. */
  lemma RewoundIsRescanned(
    mode: Mode, l: Tables, fromBlock: int, l': Tables, head: int, lookback: int, batchSize: int)
    requires Rewinds(mode, l, fromBlock, l') && fromBlock > 1
    ensures StartBlock(l'.watermark, head, lookback) == fromBlock
    ensures head >= fromBlock ==>
      NextRange(l'.watermark, head, lookback, batchSize) ==
      Some(Job(fromBlock, if head - fromBlock + 1 > batchSize then fromBlock + batchSize - 1 else head))
  {
    RewindIs(mode, l, fromBlock, l');
  }

  lemma RewindIs(mode: Mode, l: Tables, fromBlock: int, l': Tables)
    requires Rewinds(mode, l, fromBlock, l')
    ensures l'.watermark == Some(if fromBlock > 0 then fromBlock - 1 else 0)
  {
    if order :| PurgeCommits(mode, l, fromBlock, order, l') {
      PurgeRows(mode, l, fromBlock, order, l');
    } else {
      var watched, order :| RollBackCommits(mode, l, watched, fromBlock, order, l');
      RollBackRows(mode, l, watched, fromBlock, order, l');
    }
  }

  /** The next scan starts at or below the purged block exactly if that is above block 1 or in the lookback window. */
  lemma RescanIsExact(mode: Mode, l: Tables, fromBlock: int, l': Tables, head: int, lookback: int)
    requires Rewinds(mode, l, fromBlock, l') && fromBlock >= 0
    ensures StartBlock(l'.watermark, head, lookback) <= fromBlock <==>
            fromBlock > 1 || head <= 0 || lookback <= 0 || head - lookback + 1 <= fromBlock
  {
    RewindIs(mode, l, fromBlock, l');
  }

  // ----- The coordinator's range -----

  /**
   * A job starts right after a positive watermark, otherwise at the lookback window or at block 0; it
   * stops at the head or after `batchSize` blocks, whichever comes first.
   */
  lemma RangeMeans(watermark: Option<int>, head: int, lookback: int, batchSize: int)
    ensures NextRange(watermark, head, lookback, batchSize).None? <==>
            watermark.Some? && watermark.value >= head > 0
    ensures
      var range := NextRange(watermark, head, lookback, batchSize);
      range.Some? ==>
        var job := range.value;
        && (watermark.Some? && watermark.value > 0 ==> job.start == watermark.value + 1)
        && (watermark.None? || watermark.value <= 0 ==>
              && (lookback <= 0 || lookback > head ==> job.start == 0)
              && (0 < lookback <= head ==> head - job.start + 1 == lookback))
        && (head <= 0 ==> job.end == head)
        && (head > 0 && batchSize > 0 ==>
              && job.start <= job.end <= head && job.end - job.start < batchSize
              && (job.end == head || job.end - job.start + 1 == batchSize))
  {
  }

  // ----- Promotion -----

  /** A tracked event up to the block becomes finalized and applied, and nothing else about it changes. */
  lemma PromotionRows(mode: Mode, l: Tables, upTo: int, order: seq<Uuid>, l': Tables)
    requires PromoteCommits(mode, l, upTo, order, l')
    ensures l'.events.Keys == l.events.Keys
    ensures forall i | i in l.events ::
      if l.events[i].cursor <= upTo && l.events[i].finality != Unset then
        l'.events[i] == l.events[i].(finality := Finalized, applied := true)
      else l'.events[i] == l.events[i]
    ensures l'.transactions == l.transactions && l'.watermark == l.watermark
  {
  }

  /** Exactly the blocks up to the given one are finalized; hashes and later blocks stay as they are. */
  lemma PromotionBlocks(mode: Mode, l: Tables, upTo: int, order: seq<Uuid>, l': Tables)
    requires PromoteCommits(mode, l, upTo, order, l')
    ensures l'.blocks.Keys == l.blocks.Keys
    ensures forall n | n in l.blocks ::
      && l'.blocks[n].hash == l.blocks[n].hash && l'.blocks[n].parent == l.blocks[n].parent
      && (l'.blocks[n].finality == Finalized <==> n <= upTo || l.blocks[n].finality == Finalized)
      && (n > upTo ==> l'.blocks[n].finality == l.blocks[n].finality)
  {
  }

  // ----- Ingest -----

  /** Stored transactions keep their block, batch blocks replace stored ones, and the watermark never falls. */
  lemma IngestRows(mode: Mode, l: Tables, b: Batch, denied: set<string>, keys: seq<AdjustKey>, l': Tables)
    requires IngestCommits(mode, l, b, denied, keys, l')
    ensures l'.transactions.Keys == l.transactions.Keys + b.transactions.Keys
    ensures forall h | h in l'.transactions ::
      l'.transactions[h] == if h in l.transactions then l.transactions[h] else b.transactions[h]
    ensures l'.blocks.Keys == l.blocks.Keys + b.blocks.Keys
    ensures forall n | n in l'.blocks :: l'.blocks[n] == if n in b.blocks then b.blocks[n] else l.blocks[n]
    ensures l'.watermark.Some? && l'.watermark.value >= b.newSequence
    ensures l.watermark.Some? ==> l'.watermark.value >= l.watermark.value
    ensures l'.watermark.value == b.newSequence || l'.watermark == l.watermark
  {
  }

  // ----- Owners of balance rows -----

  /** The model is aggregated under `ak`: its balance, its owner, and for a staked key a staking activity. */
  predicate CountsFor(m: BalanceEvent, ak: AdjustKey) {
    && m.applied && m.address == ak.key.address && m.token == ak.key.token
    && ak.wallet == OrEmpty(m.wallet) && ak.org == OrEmpty(m.org)
    && (ak.key.kind == Liquid || IsStaking(m.activity))
  }

  /** An aggregate carries the cursor and transaction of a newest model that counts for it. */
  ghost predicate NewestFor(ms: seq<BalanceEvent>, ak: AdjustKey, acc: AdjustAccum) {
    && (forall m | m in ms && CountsFor(m, ak) :: m.cursor <= acc.cursor)
    && exists m | m in ms :: CountsFor(m, ak) && m.cursor == acc.cursor && m.txHash == acc.txHash
  }

  ghost predicate AlignedAt(ms: seq<BalanceEvent>, deltas: map<AdjustKey, AdjustAccum>, ak: AdjustKey) {
    if ak in deltas then NewestFor(ms, ak, deltas[ak]) else forall m | m in ms :: !CountsFor(m, ak)
  }

  /** There is an aggregate exactly for the keys some model counts for, and it follows their newest. */
  ghost predicate Aligned(ms: seq<BalanceEvent>, deltas: map<AdjustKey, AdjustAccum>) {
    forall ak :: AlignedAt(ms, deltas, ak)
  }

  lemma UncountedKept(ms: seq<BalanceEvent>, m: BalanceEvent, deltas: map<AdjustKey, AdjustAccum>,
                      deltas': map<AdjustKey, AdjustAccum>, ak: AdjustKey)
    requires AlignedAt(ms, deltas, ak) && !CountsFor(m, ak)
    requires (ak in deltas' <==> ak in deltas) && (ak in deltas ==> deltas'[ak] == deltas[ak])
    ensures AlignedAt(ms + [m], deltas', ak)
  {
    assert forall x :: x in ms + [m] <==> x in ms || x == m;
  }

  lemma AddedAligned(ms: seq<BalanceEvent>, m: BalanceEvent, e: DecodedEvent,
                     deltas: map<AdjustKey, AdjustAccum>, ak: AdjustKey, delta: int)
    requires AlignedAt(ms, deltas, ak) && CountsFor(m, ak) && m.cursor == e.cursor && m.txHash == e.txHash
    ensures AlignedAt(ms + [m], Added(deltas, ak, delta, e), ak)
  {
    assert forall x :: x in ms + [m] <==> x in ms || x == m;
    assert m in ms + [m];
    if ak in deltas {
      var x :| x in ms && CountsFor(x, ak) && x.cursor == deltas[ak].cursor && x.txHash == deltas[ak].txHash;
      assert x in ms + [m];
    }
  }

  lemma AggregatedAligned(ms: seq<BalanceEvent>, m: BalanceEvent, e: DecodedEvent,
                          deltas: map<AdjustKey, AdjustAccum>, ak: AdjustKey)
    requires m.applied && AlignedAt(ms, deltas, ak) && m.cursor == e.cursor && m.txHash == e.txHash
    ensures AlignedAt(ms + [m], Aggregated(deltas, m, e), ak)
  {
    var lk := AdjustKey(LiquidKey(m), OrEmpty(m.wallet), OrEmpty(m.org));
    var sk := AdjustKey(LiquidKey(m).(kind := Staked), OrEmpty(m.wallet), OrEmpty(m.org));
    var liquid := Added(deltas, lk, e.delta, e);
    if ak == lk {
      AddedAligned(ms, m, e, deltas, ak, e.delta);
    } else if ak == sk && IsStaking(m.activity) {
      assert AlignedAt(ms, liquid, ak);
      AddedAligned(ms, m, e, liquid, ak, -e.delta);
    } else {
      UncountedKept(ms, m, deltas, Aggregated(deltas, m, e), ak);
    }
  }

  lemma AlignedStep(b: Batch, s: Build, e: DecodedEvent)
    requires Step(b, s, e).Some? && Aligned(s.models, s.deltas)
    ensures Aligned(Step(b, s, e).value.models, Step(b, s, e).value.deltas)
  {
    var s' := Step(b, s, e).value;
    if s'.models == s.models {
      QuietStep(b, s, e);
    } else {
      var m := ModelStep(b, s, e);
      forall ak ensures AlignedAt(s'.models, s'.deltas, ak) {
        assert AlignedAt(s.models, s.deltas, ak);
        if m.applied {
          AggregatedAligned(s.models, m, e, s.deltas, ak);
        } else {
          UncountedKept(s.models, m, s.deltas, s.deltas, ak);
        }
      }
    }
  }

  lemma {:induction false} AlignedBuild(b: Batch, s: Build, events: seq<DecodedEvent>)
    requires BuildAll(b, s, events).Some? && Aligned(s.models, s.deltas)
    ensures Aligned(BuildAll(b, s, events).value.models, BuildAll(b, s, events).value.deltas)
    decreases |events|
  {
    if events != [] {
      AlignedStep(b, s, events[0]);
      AlignedBuild(b, Step(b, s, events[0]).value, events[1..]);
    }
  }

  /** Every batch aggregates exactly the applied models' balances and owners, up to their newest cursor. */
  lemma AggregatesAligned(l: Tables, b: Batch, denied: set<string>)
    requires BuildOf(l, b, denied).Some?
    ensures Aligned(BuildOf(l, b, denied).value.models, BuildOf(l, b, denied).value.deltas)
  {
    AlignedBuild(b, Start(l.balances, b, denied), b.events);
  }

  predicate SameOwner(before: Balance, after: Balance) {
    after.wallet == before.wallet && after.org == before.org
  }

  predicate OwnedLike(row: Balance, it: AdjustItem) {
    row.wallet == it.wallet && row.org == it.org
  }

  /** Adjusting keeps the owner of a row; a new row takes its owner from one of the items for it. */
  ghost predicate OwnerFollows(before: Option<Balance>, items: seq<AdjustItem>, k: BalanceKey, after: Option<Balance>) {
    && (before.Some? ==> after.Some? && SameOwner(before.value, after.value))
    && (before.None? && after.Some? ==> exists it | it in items :: it.key == k && OwnedLike(after.value, it))
  }

  lemma {:induction false} RowAfterOwner(before: Option<Balance>, items: seq<AdjustItem>, k: BalanceKey)
    ensures OwnerFollows(before, items, k, RowAfter(before, items, k))
    decreases |items|
  {
    if items != [] {
      var it := items[0];
      assert it in items && forall x | x in items[1..] :: x in items;
      RowAfterOwner(if it.key == k then Some(Applied(before, it)) else before, items[1..], k);
    }
  }

  lemma AdjustedOwner(mode: Mode, b: Balances, items: seq<AdjustItem>, b': Balances, k: BalanceKey)
    requires Adjusted(mode, b, items, b')
    ensures OwnerFollows(Row(b, k), items, k, Row(b', k))
  {
    match mode
    case PerRow =>
      AdjustAllRow(b, items, k);
      RowAfterOwner(Row(b, k), items, k);
    case BulkStatement =>
      assert RowAdjusted(Row(b, k), items, k, Row(b', k));
  }

  /** A row that is adjusted carries the transaction of one of the items for it; any other is left alone. */
  ghost predicate StampFollows(before: Option<Balance>, items: seq<AdjustItem>, k: BalanceKey, after: Option<Balance>) {
    if Mentions(items, k) then
      after.Some? && exists it | it in items :: it.key == k && after.value.txHash == it.txHash
    else after == before
  }

  lemma {:induction false} RowAfterStamp(before: Option<Balance>, items: seq<AdjustItem>, k: BalanceKey)
    ensures StampFollows(before, items, k, RowAfter(before, items, k))
    decreases |items|
  {
    if items != [] {
      var it, rest := items[0], items[1..];
      assert it in items && forall x :: x in items <==> x == it || x in rest;
      var next := if it.key == k then Some(Applied(before, it)) else before;
      RowAfterStamp(next, rest, k);
    }
  }

  lemma AdjustedStamp(mode: Mode, b: Balances, items: seq<AdjustItem>, b': Balances, k: BalanceKey)
    requires Adjusted(mode, b, items, b')
    ensures StampFollows(Row(b, k), items, k, Row(b', k))
  {
    match mode
    case PerRow =>
      AdjustAllRow(b, items, k);
      RowAfterStamp(Row(b, k), items, k);
    case BulkStatement =>
      assert RowAdjusted(Row(b, k), items, k, Row(b', k));
  }

  lemma {:induction false} ItemsFrom(order: seq<AdjustKey>, deltas: map<AdjustKey, AdjustAccum>, it: AdjustItem)
    requires (forall ak | ak in order :: ak in deltas) && it in Items(order, deltas)
    ensures exists ak | ak in order :: it == ItemOf(ak, deltas[ak])
    decreases |order|
  {
    var init, last := order[..|order| - 1], order[|order| - 1];
    assert last in order && forall ak | ak in init :: ak in order;
    if it != ItemOf(last, deltas[last]) { ItemsFrom(init, deltas, it); }
  }

  /** The wallet or organization of a model, an empty one counting as none. */
  predicate Names(stored: Option<string>, given: Option<string>) {
    if given.Some? && given.value != "" then stored == given else stored == None
  }

  /**
   * An ingest leaves the owner of every existing balance row alone. A row it creates belongs to the wallet
   * and organization of an applied event of that very balance.
   */
  lemma IngestOwners(
    mode: Mode, l: Tables, b: Batch, denied: set<string>, keys: seq<AdjustKey>, l': Tables, k: BalanceKey)
    requires IngestCommits(mode, l, b, denied, keys, l')
    ensures k in l.balances ==> k in l'.balances && SameOwner(l.balances[k], l'.balances[k])
    ensures k in l'.balances && k !in l.balances ==>
      exists m | m in BuildOf(l, b, denied).value.models ::
        && m.applied && m.address == k.address && m.token == k.token
        && Names(l'.balances[k].wallet, m.wallet) && Names(l'.balances[k].org, m.org)
  {
    var r := BuildOf(l, b, denied).value;
    var items := Items(keys, r.deltas);
    AdjustedOwner(mode, l.balances, items, l'.balances, k);
    if k in l'.balances && k !in l.balances {
      var it :| it in items && it.key == k && OwnedLike(l'.balances[k], it);
      ItemsFrom(keys, r.deltas, it);
      var ak :| ak in keys && it == ItemOf(ak, r.deltas[ak]);
      AggregatesAligned(l, b, denied);
      assert AlignedAt(r.models, r.deltas, ak);
    }
  }

  /** The row belongs to the owner of the event, whose balance it is. */
  predicate BelongsTo(row: Balance, k: BalanceKey, e: BalanceEvent) {
    e.address == k.address && e.token == k.token && row.wallet == e.wallet && row.org == e.org
  }

  lemma {:induction false} PromotedFrom(es: seq<BalanceEvent>, it: AdjustItem)
    requires it in Promotions(es)
    ensures exists e | e in es :: it in PromotionOf(e)
    decreases |es|
  {
    var init, last := es[..|es| - 1], es[|es| - 1];
    assert last in es && forall e | e in init :: e in es;
    if it !in PromotionOf(last) { PromotedFrom(init, it); }
  }

  lemma {:induction false} ReversedFrom(es: seq<BalanceEvent>, it: AdjustItem)
    requires it in Reversals(es)
    ensures exists e | e in es :: it in ReversalOf(e)
    decreases |es|
  {
    var init, last := es[..|es| - 1], es[|es| - 1];
    assert last in es && forall e | e in init :: e in es;
    if it !in ReversalOf(last) { ReversedFrom(init, it); }
  }

  lemma RowFrom(order: seq<Uuid>, t: EventTable, e: BalanceEvent) returns (i: Uuid)
    requires (forall n | 0 <= n < |order| :: order[n] in t) && e in Rows(order, t)
    ensures i in order && i in t && t[i] == e
  {
    var rows := Rows(order, t);
    var n :| 0 <= n < |rows| && rows[n] == e;
    i := order[n];
  }

  lemma PromotedOwner(order: seq<Uuid>, t: EventTable, it: AdjustItem, row: Balance) returns (i: Uuid)
    requires forall n | 0 <= n < |order| :: order[n] in t
    requires it in Promotions(Rows(order, t)) && OwnedLike(row, it)
    ensures i in order && i in t && BelongsTo(row, it.key, t[i])
  {
    PromotedFrom(Rows(order, t), it);
    var e :| e in Rows(order, t) && it in PromotionOf(e);
    i := RowFrom(order, t, e);
  }

  lemma ReversedOwner(order: seq<Uuid>, t: EventTable, it: AdjustItem, row: Balance) returns (i: Uuid)
    requires forall n | 0 <= n < |order| :: order[n] in t
    requires it in Reversals(Rows(order, t)) && OwnedLike(row, it)
    ensures i in order && i in t && t[i].applied && BelongsTo(row, it.key, t[i])
  {
    ReversedFrom(Rows(order, t), it);
    var e :| e in Rows(order, t) && it in ReversalOf(e);
    i := RowFrom(order, t, e);
  }

  /** A promotion keeps the owner of every balance row, and a row it creates belongs to a promoted event. */
  lemma PromotionOwners(mode: Mode, l: Tables, upTo: int, order: seq<Uuid>, l': Tables, k: BalanceKey)
    requires PromoteCommits(mode, l, upTo, order, l')
    ensures k in l.balances ==> k in l'.balances && SameOwner(l.balances[k], l'.balances[k])
    ensures k in l'.balances && k !in l.balances ==>
      exists i | i in l.events ::
        !l.events[i].applied && l'.events[i].applied && BelongsTo(l'.balances[k], k, l.events[i])
  {
    var t := Finalised(l.events, upTo);
    var items := Promotions(Rows(order, t));
    AdjustedOwner(mode, l.balances, items, l'.balances, k);
    if k in l'.balances && k !in l.balances {
      var it :| it in items && it.key == k && OwnedLike(l'.balances[k], it);
      var i := PromotedOwner(order, t, it, l'.balances[k]);
      assert i in Promotable(t, upTo) && BelongsTo(l'.balances[k], k, l.events[i]);
    }
  }

  /** The same for a purge and the applied events it deletes. */
  lemma PurgeOwners(mode: Mode, l: Tables, fromBlock: int, order: seq<Uuid>, l': Tables, k: BalanceKey)
    requires PurgeCommits(mode, l, fromBlock, order, l')
    ensures k in l.balances ==> k in l'.balances && SameOwner(l.balances[k], l'.balances[k])
    ensures k in l'.balances && k !in l.balances ==>
      exists i | i in l.events :: l.events[i].applied && i !in l'.events && BelongsTo(l'.balances[k], k, l.events[i])
  {
    var items := Reversals(Rows(order, l.events));
    AdjustedOwner(mode, l.balances, items, l'.balances, k);
    if k in l'.balances && k !in l.balances {
      var it :| it in items && it.key == k && OwnedLike(l'.balances[k], it);
      var i := ReversedOwner(order, l.events, it, l'.balances[k]);
      assert i in From(l.events, fromBlock) && BelongsTo(l'.balances[k], k, l.events[i]);
    }
  }
}
