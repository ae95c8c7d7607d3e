/** The transactions that change the serving tables, and the exact conservation law they obey. */
module LedgerSteps {
  import opened Sums
  import opened Ledger
  import opened EventStore
  import opened BalanceStore
  import opened EventBuilder
  import opened EventBuilderLaws

  // ----- Adjustment lists built from stored events -----

  function Item(e: BalanceEvent, kind: BalanceType, delta: int): AdjustItem {
    AdjustItem(BalanceKey(e.address, e.token, kind), e.wallet, e.org, delta, e.cursor, e.txHash)
  }

  function ReversalOf(e: BalanceEvent): seq<AdjustItem> {
    if !e.applied then []
    else [Item(e, Liquid, -e.delta)] + (if IsStaking(e.activity) then [Item(e, Staked, e.delta)] else [])
  }

  function PromotionOf(e: BalanceEvent): seq<AdjustItem> {
    [Item(e, Liquid, e.delta)] + (if IsStaking(e.activity) then [Item(e, Staked, -e.delta)] else [])
  }

  function Reversals(es: seq<BalanceEvent>): seq<AdjustItem> {
    if es == [] then [] else Reversals(es[..|es| - 1]) + ReversalOf(es[|es| - 1])
  }

  function Promotions(es: seq<BalanceEvent>): seq<AdjustItem> {
    if es == [] then [] else Promotions(es[..|es| - 1]) + PromotionOf(es[|es| - 1])
  }

  lemma ReversalsExtend(es: seq<BalanceEvent>, i: nat)
    requires i < |es|
    ensures Reversals(es[..i + 1]) == Reversals(es[..i]) + ReversalOf(es[i])
  {
    assert es[..i + 1][..i] == es[..i];
  }

  /** buildReversalAdjustItems: applied events only, with the extra staked item for staking. */
  method BuildReversalAdjustItems(es: seq<BalanceEvent>) returns (items: seq<AdjustItem>)
    ensures items == Reversals(es)
  {
    items := [];
    for i := 0 to |es|
      invariant items == Reversals(es[..i])
    {
      ReversalsExtend(es, i);
      var be := es[i];
      if !be.applied { continue; }
      items := items + [Item(be, Liquid, -be.delta)];
      if IsStaking(be.activity) { items := items + [Item(be, Staked, be.delta)]; }
    }
    assert es[..|es|] == es;
  }

  /** buildPromotionAdjustItems: the forward deltas of newly finalized events. */
  method BuildPromotionAdjustItems(es: seq<BalanceEvent>) returns (items: seq<AdjustItem>)
    ensures items == Promotions(es)
  {
    items := [];
    for i := 0 to |es|
      invariant items == Promotions(es[..i])
    {
      assert es[..i + 1][..i] == es[..i];
      items := items + [Item(es[i], Liquid, es[i].delta)];
      if IsStaking(es[i].activity) { items := items + [Item(es[i], Staked, -es[i].delta)]; }
    }
    assert es[..|es|] == es;
  }

  lemma {:induction false} ReversalsSum(es: seq<BalanceEvent>, k: BalanceKey)
    ensures SumFor(Reversals(es), k) == -ModelSum(es, k)
    decreases |es|
  {
    if es != [] {
      var init, e := es[..|es| - 1], es[|es| - 1];
      ReversalsSum(init, k);
      SplitSums(Reversals(init), ReversalOf(e), k);
      if e.applied && IsStaking(e.activity) { SplitSums([Item(e, Liquid, -e.delta)], [Item(e, Staked, e.delta)], k); }
    }
  }

  /** The events as they stand once promoted. */
  function AllApplied(es: seq<BalanceEvent>): seq<BalanceEvent> {
    seq(|es|, i requires 0 <= i < |es| => es[i].(applied := true))
  }

  lemma {:induction false} PromotionsSum(es: seq<BalanceEvent>, k: BalanceKey)
    ensures SumFor(Promotions(es), k) == ModelSum(AllApplied(es), k)
    decreases |es|
  {
    if es != [] {
      var init, e := es[..|es| - 1], es[|es| - 1];
      PromotionsSum(init, k);
      SplitSums(Promotions(init), PromotionOf(e), k);
      if IsStaking(e.activity) { SplitSums([Item(e, Liquid, e.delta)], [Item(e, Staked, -e.delta)], k); }
      assert AllApplied(es)[..|es| - 1] == AllApplied(init);
    }
  }

  // ----- Rows read in some order -----

  function Rows(order: seq<Uuid>, t: EventTable): (r: seq<BalanceEvent>)
    requires forall n | 0 <= n < |order| :: order[n] in t
    ensures |r| == |order| && forall n | 0 <= n < |order| :: r[n] == t[order[n]]
  {
    if order == [] then [] else Rows(order[..|order| - 1], t) + [t[order[|order| - 1]]]
  }

  lemma {:induction false} RowsSum(order: seq<Uuid>, t: EventTable, k: BalanceKey)
    requires forall n | 0 <= n < |order| :: order[n] in t
    ensures ModelSum(Rows(order, t), k) == SumOver(order, Weights(t, k))
    decreases |order|
  {
    if order != [] {
      RowsSum(order[..|order| - 1], t, k);
      assert Rows(order, t)[..|order| - 1] == Rows(order[..|order| - 1], t);
    }
  }

  /** Reading the rows of a set in any order, their weights add up to the stored sum of that set. */
  lemma RowsOfRestricted(order: seq<Uuid>, t: EventTable, s: set<Uuid>, k: BalanceKey)
    requires s <= t.Keys && Enumerates(order, s)
    ensures ModelSum(Rows(order, t), k) == StoredSum(Restricted(t, s), k)
  {
    RowsSum(order, t, k);
    EnumerationTotal(order, s, Weights(t, k));
    WeightsRestricted(t, s, k);
  }

  // ----- The transactions -----

  /** `order` stands for the order in which a hash map or a query yields its elements. */
  datatype Action =
    | Ingest(batch: Batch, denied: set<string>, keys: seq<AdjustKey>)
    | Promote(upTo: int, order: seq<Uuid>)
    | Purge(fromBlock: int, order: seq<Uuid>)
    | RollBack(watched: Option<Address>, fork: int, order: seq<Uuid>)
    | Aborted

  function BuildOf(l: Tables, b: Batch, denied: set<string>): Option<Build> {
    BuildAll(b, Start(l.balances, b, denied), b.events)
  }

  /** The denied-token cache after phase 3 of a batch. It is not part of the transaction. */
  function Learned(l: Tables, b: Batch, denied: set<string>): set<string> {
    LearnedFrom(b, Start(l.balances, b, denied), b.events)
  }

  function Advanced(w: Option<int>, sequence: int): Option<int> {
    Some(if w.Some? then Max(w.value, sequence) else sequence)
  }

  function RewindTo(fromBlock: int): int {
    Max(fromBlock - 1, 0)
  }

  /** The batch commits: events upserted, aggregated deltas applied, blocks recorded, watermark raised. */
  ghost predicate IngestCommits(
    mode: Mode, l: Tables, b: Batch, denied: set<string>, keys: seq<AdjustKey>, l': Tables)
  {
    var r := BuildOf(l, b, denied);
    && r.Some?
    && Enumerates(keys, r.value.deltas.Keys)
    && BulkUpsert(l.events, r.value.models) == Some(l'.events)
    && Adjusted(mode, l.balances, Items(keys, r.value.deltas), l'.balances)
    && l'.transactions == b.transactions + l.transactions
    && l'.blocks == l.blocks + b.blocks
    && l'.watermark == Advanced(l.watermark, b.newSequence)
  }

  /** promoteBalanceEvents, first statement: tracked states up to the block become finalized. */
  function Finalised(t: EventTable, upTo: int): EventTable {
    map i | i in t ::
      if t[i].cursor <= upTo && t[i].finality != Finalized && t[i].finality != Unset then t[i].(finality := Finalized)
      else t[i]
  }

  function Promotable(t: EventTable, upTo: int): set<Uuid> {
    set i | i in t && t[i].cursor <= upTo && !t[i].applied && t[i].finality == Finalized
  }

  function WithApplied(t: EventTable, s: set<Uuid>): EventTable {
    map i | i in t :: if i in s then t[i].(applied := true) else t[i]
  }

  function FinalisedBlocks(blocks: map<int, Block>, upTo: int): map<int, Block> {
    map n | n in blocks :: if n <= upTo then blocks[n].(finality := Finalized) else blocks[n]
  }

  ghost predicate PromoteCommits(mode: Mode, l: Tables, upTo: int, order: seq<Uuid>, l': Tables) {
    var t := Finalised(l.events, upTo);
    && Enumerates(order, Promotable(t, upTo))
    && Adjusted(mode, l.balances, Promotions(Rows(order, t)), l'.balances)
    && l' == l.(events := WithApplied(t, Promotable(t, upTo)), balances := l'.balances,
                blocks := FinalisedBlocks(l.blocks, upTo))
  }

  function From(t: EventTable, fromBlock: int): set<Uuid> {
    set i | i in t && t[i].cursor >= fromBlock
  }

  function FromWatched(t: EventTable, watched: Option<Address>, fork: int): set<Uuid> {
    set i | i in t && t[i].cursor >= fork && (watched.None? || t[i].watched == watched.value)
  }

  function TransactionsBefore(transactions: map<string, int>, fromBlock: int): map<string, int> {
    map h | h in transactions && transactions[h] < fromBlock :: transactions[h]
  }

  function BlocksBefore(blocks: map<int, Block>, fromBlock: int): map<int, Block> {
    map n | n in blocks && n < fromBlock :: blocks[n]
  }

  /** The tables after a purge from a block, apart from the balances. */
  function Purged(l: Tables, fromBlock: int, balances: Balances): Tables {
    Tables(
      l.events - From(l.events, fromBlock),
      balances,
      TransactionsBefore(l.transactions, fromBlock),
      BlocksBefore(l.blocks, fromBlock),
      Some(RewindTo(fromBlock)))
  }

  ghost predicate PurgeCommits(mode: Mode, l: Tables, fromBlock: int, order: seq<Uuid>, l': Tables) {
    && Enumerates(order, From(l.events, fromBlock))
    && Adjusted(mode, l.balances, Reversals(Rows(order, l.events)), l'.balances)
    && l' == Purged(l, fromBlock, l'.balances)
  }

  /** rollbackCanonicalityDrift: for one watched address, or for the whole chain in block-scan mode. */
  ghost predicate RollBackCommits(
    mode: Mode, l: Tables, watched: Option<Address>, fork: int, order: seq<Uuid>, l': Tables)
  {
    var gone := FromWatched(l.events, watched, fork);
    && Enumerates(order, gone)
    && Adjusted(mode, l.balances, Reversals(Rows(order, l.events)), l'.balances)
    && l' == l.(events := l.events - gone, balances := l'.balances, watermark := Some(RewindTo(fork)))
  }

  ghost predicate Next(mode: Mode, l: Tables, a: Action, l': Tables) {
    match a
    case Ingest(batch, denied, keys) => IngestCommits(mode, l, batch, denied, keys, l')
    case Promote(upTo, order) => PromoteCommits(mode, l, upTo, order, l')
    case Purge(fromBlock, order) => PurgeCommits(mode, l, fromBlock, order, l')
    case RollBack(watched, fork, order) => RollBackCommits(mode, l, watched, fork, order, l')
    case Aborted => l' == l
  }

  /** The adjustment list the transaction hands to the balance repository. */
  ghost function Adjustments(mode: Mode, l: Tables, a: Action, l': Tables): seq<AdjustItem>
    requires Next(mode, l, a, l')
  {
    match a
    case Ingest(batch, denied, keys) => Items(keys, BuildOf(l, batch, denied).value.deltas)
    case Promote(upTo, order) => Promotions(Rows(order, Finalised(l.events, upTo)))
    case Purge(fromBlock, order) => Reversals(Rows(order, l.events))
    case RollBack(watched, fork, order) => Reversals(Rows(order, l.events))
    case Aborted => []
  }

  // ----- Phantom deltas -----

  /** What `e` adds to the balance under `k` without the event table recording it. */
  ghost function PhantomOf(t: EventTable, e: BalanceEvent, k: BalanceKey): int {
    match UpsertKind(t, e)
    case Inserted(_) => 0
    case Updated(i) => e.Weight(k) - (if e.applied && !t[i].applied then t[i].Effect(k) else 0)
    case Rejected => e.Weight(k)
    case Duplicate => 0
  }

  ghost function Phantom(t: EventTable, es: seq<BalanceEvent>, k: BalanceKey): int
    requires UpsertAll(t, es).Some?
    decreases |es|
  {
    if es == [] then 0 else PhantomOf(t, es[0], k) + Phantom(Upsert(t, es[0]).value, es[1..], k)
  }

  ghost function PhantomIn(mode: Mode, l: Tables, a: Action, l': Tables, k: BalanceKey): int
    requires Next(mode, l, a, l')
  {
    match a
    case Ingest(batch, denied, keys) =>
      var models := BuildOf(l, batch, denied).value.models;
      BulkUpsertIsFold(l.events, models);
      Phantom(l.events, models, k)
    case _ => 0
  }

  lemma InsertLaw(t: EventTable, e: BalanceEvent, k: BalanceKey)
    requires UpsertKind(t, e).Inserted? && Upsert(t, e).Some?
    ensures StoredSum(Upsert(t, e).value, k) + PhantomOf(t, e, k) == StoredSum(t, k) + e.Weight(k)
  {
    StoredSumUpdate(t, UpsertKind(t, e).id, e, k);
  }

  lemma UpdateLaw(t: EventTable, e: BalanceEvent, k: BalanceKey)
    requires UpsertKind(t, e).Updated? && Upsert(t, e).Some?
    ensures StoredSum(Upsert(t, e).value, k) + PhantomOf(t, e, k) == StoredSum(t, k) + e.Weight(k)
  {
    var i := UpsertKind(t, e).id;
    StoredSumUpdate(t, i, Merge(t[i], e), k);
  }

  lemma UpsertLaw(t: EventTable, e: BalanceEvent, k: BalanceKey)
    requires Upsert(t, e).Some?
    ensures StoredSum(Upsert(t, e).value, k) + PhantomOf(t, e, k) == StoredSum(t, k) + e.Weight(k)
  {
    match UpsertKind(t, e)
    case Inserted(_) => InsertLaw(t, e, k);
    case Updated(_) => UpdateLaw(t, e, k);
    case Rejected =>
  }

  lemma {:induction false} UpsertAllLaw(t: EventTable, es: seq<BalanceEvent>, k: BalanceKey)
    requires UpsertAll(t, es).Some?
    ensures StoredSum(UpsertAll(t, es).value, k) + Phantom(t, es, k) == StoredSum(t, k) + ModelSum(es, k)
    decreases |es|
  {
    if es != [] {
      var e := es[0];
      UpsertLaw(t, e, k);
      UpsertAllLaw(Upsert(t, e).value, es[1..], k);
      ModelSumSplit(es, 1, k);
      assert es[..1] == [e] && [e][..0] == [];
    }
  }

  // ----- The conservation law -----

  lemma IngestLaw(mode: Mode, l: Tables, b: Batch, denied: set<string>, keys: seq<AdjustKey>, l': Tables, k: BalanceKey)
    requires IngestCommits(mode, l, b, denied, keys, l')
    ensures
      var r := BuildOf(l, b, denied).value;
      && UpsertAll(l.events, r.models) == Some(l'.events)
      && Drift(l', k) == Drift(l, k) + Phantom(l.events, r.models, k)
                         - Lost(l.balances, Items(keys, r.deltas), l'.balances, k)
  {
    var r := BuildOf(l, b, denied).value;
    BuiltBatch(b, Prefetch(l.balances, b), denied, r);
    assert Total(KeyDeltas(r.deltas, k)) == ModelSum(r.models, k);
    ItemsTotal(keys, r.deltas, k);
    BulkUpsertIsFold(l.events, r.models);
    UpsertAllLaw(l.events, r.models, k);
  }

  /** Deleting rows and reversing their deltas leaves the drift as it was, save for what the reversal lost. */
  lemma ReversalLaw(l: Tables, gone: set<Uuid>, order: seq<Uuid>, l': Tables, k: BalanceKey)
    requires gone <= l.events.Keys && Enumerates(order, gone) && l'.events == l.events - gone
    ensures Drift(l', k) == Drift(l, k) - Lost(l.balances, Reversals(Rows(order, l.events)), l'.balances, k)
  {
    StoredSumSplit(l.events, gone, k);
    RowsOfRestricted(order, l.events, gone, k);
    ReversalsSum(Rows(order, l.events), k);
  }

  lemma PromotionTotal(t: EventTable, s: set<Uuid>, k: BalanceKey)
    requires s <= t.Keys && forall i | i in s :: !t[i].applied
    ensures StoredSum(WithApplied(t, s), k) == StoredSum(t, k) + StoredSum(Restricted(WithApplied(t, s), s), k)
  {
    var t' := WithApplied(t, s);
    StoredSumSplit(t', s, k);
    StoredSumSplit(t, s, k);
    assert t' - s == t - s;
    forall i | i in Weights(Restricted(t, s), k) ensures Weights(Restricted(t, s), k)[i] == 0 {
      assert !t[i].applied;
    }
    TotalZero(Weights(Restricted(t, s), k));
  }

  lemma FinalisedSum(t: EventTable, upTo: int, k: BalanceKey)
    ensures StoredSum(Finalised(t, upTo), k) == StoredSum(t, k)
  {
    forall i | i in t ensures Weights(Finalised(t, upTo), k)[i] == Weights(t, k)[i] {
    }
    assert Weights(Finalised(t, upTo), k) == Weights(t, k);
  }

  lemma PromotionLaw(l: Tables, upTo: int, order: seq<Uuid>, l': Tables, k: BalanceKey)
    requires
      var t := Finalised(l.events, upTo);
      Enumerates(order, Promotable(t, upTo)) && l'.events == WithApplied(t, Promotable(t, upTo))
    ensures Drift(l', k) == Drift(l, k)
      - Lost(l.balances, Promotions(Rows(order, Finalised(l.events, upTo))), l'.balances, k)
  {
    var t := Finalised(l.events, upTo);
    var s := Promotable(t, upTo);
    FinalisedSum(l.events, upTo, k);
    PromotionTotal(t, s, k);
    RowsOfRestricted(order, WithApplied(t, s), s, k);
    PromotionsSum(Rows(order, t), k);
    assert AllApplied(Rows(order, t)) == Rows(order, WithApplied(t, s));
  }

  /**
   * Conservation, exactly, for every transaction, batch, database choice and starting state: a
   * transaction moves the drift of a balance by the phantom deltas of its batch, minus what the
   * balance statement lost.
   */
  lemma StepLaw(mode: Mode, l: Tables, a: Action, l': Tables, k: BalanceKey)
    requires Next(mode, l, a, l')
    ensures Drift(l', k) == Drift(l, k) + PhantomIn(mode, l, a, l', k)
                            - Lost(l.balances, Adjustments(mode, l, a, l'), l'.balances, k)
  {
    match a
    case Ingest(batch, denied, keys) => IngestLaw(mode, l, batch, denied, keys, l', k);
    case Promote(upTo, order) => PromotionLaw(l, upTo, order, l', k);
    case Purge(fromBlock, order) => ReversalLaw(l, From(l.events, fromBlock), order, l', k);
    case RollBack(watched, fork, order) => ReversalLaw(l, FromWatched(l.events, watched, fork), order, l', k);
    case Aborted =>
  }
}
