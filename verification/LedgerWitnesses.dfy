/** Concrete inputs on which the ledger law fails: what the conditions of the theorems guard against. */
module LedgerWitnesses {
  import opened Sums
  import opened Ledger
  import opened EventStore
  import opened BalanceStore
  import opened EventBuilder
  import opened EventBuilderLaws
  import opened LedgerSteps
  import opened LedgerRuns

  const KEY: BalanceKey := BalanceKey("addr", "token", Liquid)

  function Received(id: Uuid, eventId: string, delta: int, applied: bool, finality: Finality): BalanceEvent {
    BalanceEvent(id, eventId, "tx", "token", Deposit, "addr", delta, "addr", None, None, 10, applied, finality,
                 None, None)
  }

  function Holding(events: EventTable, amount: int): Tables {
    Tables(events, map[KEY := Balance(amount, 10, "tx", None, None)], map[], map[], Some(10))
  }

  lemma OneRowSum(e: BalanceEvent, i: Uuid, k: BalanceKey)
    ensures StoredSum(map[i := e], k) == e.Weight(k)
  {
    StoredSumUpdate(map[], i, e, k);
    assert Weights(map[], k) == map[];
    assert map[][i := e] == map[i := e];
  }

  /** A one-event batch on Ethereum, delivering event "ev" of 5 units with the given finality. */
  function OneEvent(finality: Finality): Batch {
    Batch(Ethereum, false, "addr", Owner(None, None), map[], map["c" := "token"], {"tx"},
          [DecodedEvent(2, "ev", "c", "tx", "addr", "", Deposit, 5, Native, finality, 10, false)],
          map["tx" := 10], map[], 10)
  }

  const OWNERLESS: AdjustKey := AdjustKey(KEY, "", "")

  function Delivered(finality: Finality, before: int): BalanceEvent {
    BalanceEvent(2, "ev", "tx", "token", Deposit, "addr", 5, "addr", None, None, 10, true, finality,
                 Some(before), Some(before + 5))
  }

  lemma OneEventBuild(events: EventTable, amount: int, finality: Finality)
    requires ApplyRank(finality) >= 2 && -1000 < amount < 1000
    ensures
      var r := BuildOf(Holding(events, amount), OneEvent(finality), {});
      && r.Some?
      && r.value.models == [Delivered(finality, amount)]
      && r.value.deltas == map[OWNERLESS := AdjustAccum(5, 10, "tx")]
  {
    var l, b := Holding(events, amount), OneEvent(finality);
    var e := b.events[0];
    var s := Start(l.balances, b, {});
    assert b.events == [e] && b.events[1..] == [] && e in b.events;
    assert KEY == BalanceKey(e.address, b.tokenIds[e.contract], Liquid);
    assert Prefetch(l.balances, b)[KEY] == Accum(amount, true);
    assert s.models + [Delivered(finality, amount)] == [Delivered(finality, amount)];
    assert map[][OWNERLESS := AdjustAccum(5, 10, "tx")] == map[OWNERLESS := AdjustAccum(5, 10, "tx")];
    assert Step(b, s, e).Some?;
  }

  /** The tables after ingesting the one event item by item. */
  lemma OneEventIngests(row: BalanceEvent, amount: int, finality: Finality) returns (l': Tables)
    requires row.eventId == "ev" && ApplyRank(finality) >= 2 && -1000 < amount < 1000
    ensures IngestCommits(PerRow, Holding(map[1 := row], amount), OneEvent(finality), {}, [OWNERLESS], l')
  {
    var l := Holding(map[1 := row], amount);
    var b := OneEvent(finality);
    OneEventBuild(map[1 := row], amount, finality);
    var r := BuildOf(l, b, {}).value;
    var e := Delivered(finality, amount);
    BulkUpsertExact(l.events, [e]);
    assert [e][1..] == [];
    assert l.events[1].eventId == "ev" && Named(l.events, "ev");
    assert Enumerates([OWNERLESS], r.deltas.Keys);
    l' := Tables(UpsertAll(l.events, [e]).value, AdjustAll(l.balances, Items([OWNERLESS], r.deltas)),
                 b.transactions + l.transactions, l.blocks + b.blocks, Advanced(l.watermark, b.newSequence));
  }

  lemma HoldingBalanced(row: BalanceEvent, amount: int)
    requires row.Weight(KEY) == amount
    requires forall k | k != KEY :: row.Weight(k) == 0
    ensures Balanced(Holding(map[1 := row], amount))
  {
    forall k ensures Drift(Holding(map[1 := row], amount), k) == 0 { OneRowSum(row, 1, k); }
  }

  /** Delivering the event to a row that is already applied, or that outranks it, breaks the balance. */
  lemma StaleEventUnbalances(row: BalanceEvent, amount: int, finality: Finality, l': Tables)
    requires row.eventId == "ev" && ApplyRank(finality) >= 2 && -1000 < amount < 1000
    requires IngestCommits(PerRow, Holding(map[1 := row], amount), OneEvent(finality), {}, [OWNERLESS], l')
    requires Balanced(Holding(map[1 := row], amount))
    requires row.applied || !Wins(row, Delivered(finality, amount))
    ensures !Balanced(l')
  {
    var l, e := Holding(map[1 := row], amount), Delivered(finality, amount);
    OneEventBuild(map[1 := row], amount, finality);
    assert l.events[1].eventId == "ev" && Named(l.events, "ev") && ConflictRow(l.events, e) == 1;
    FreshnessIsExact(l, OneEvent(finality), {}, [OWNERLESS], l', e);
  }

  lemma OutrankedUpsert(row: BalanceEvent, e: BalanceEvent)
    requires row.eventId == e.eventId == "ev" && !Wins(row, e)
    ensures UpsertAll(map[1 := row], [e]) == Some(map[1 := row])
  {
    var t := map[1 := row];
    assert t[1].eventId == "ev" && Named(t, "ev") && ConflictRow(t, e) == 1;
    assert [e][1..] == [];
  }

  lemma OutrankedEventNotStored(row: BalanceEvent, amount: int, finality: Finality, l': Tables)
    requires row.eventId == "ev" && ApplyRank(finality) >= 2 && -1000 < amount < 1000
    requires IngestCommits(PerRow, Holding(map[1 := row], amount), OneEvent(finality), {}, [OWNERLESS], l')
    requires !Wins(row, Delivered(finality, amount))
    ensures l'.events == map[1 := row]
  {
    OneEventBuild(map[1 := row], amount, finality);
    BulkUpsertExact(map[1 := row], [Delivered(finality, amount)]);
    OutrankedUpsert(row, Delivered(finality, amount));
  }

  /** Ingesting an applied event a second time moves the balance again: ingest is not idempotent. */
  lemma ReplayMovesBalanceTwice() returns (l: Tables, l': Tables)
    ensures l == Holding(map[1 := Received(1, "ev", 5, true, Confirmed)], 5) && Balanced(l)
    ensures Next(PerRow, l, Ingest(OneEvent(Confirmed), {}, [OWNERLESS]), l') && !Balanced(l')
  {
    var row := Received(1, "ev", 5, true, Confirmed);
    l := Holding(map[1 := row], 5);
    HoldingBalanced(row, 5);
    l' := OneEventIngests(row, 5, Confirmed);
    StaleEventUnbalances(row, 5, Confirmed, l');
  }

  lemma PendingOutranksUnset(row: BalanceEvent, e: BalanceEvent)
    requires row.finality == Pending && e.finality == Unset
    ensures !Wins(row, e)
  {
  }

  /**
   * An event with no finality state counts as finalized when its delta is applied but as the weakest
   * when its row is stored. Meeting a pending row, it moves the balance and leaves the row unapplied.
   */
  lemma UnsetFinalityMovesBalanceUnrecorded() returns (l: Tables, l': Tables)
    ensures l == Holding(map[1 := Received(1, "ev", 5, false, Pending)], 0) && Balanced(l)
    ensures Next(PerRow, l, Ingest(OneEvent(Unset), {}, [OWNERLESS]), l') && !Balanced(l')
    ensures l'.events == l.events
  {
    var row := Received(1, "ev", 5, false, Pending);
    l := Holding(map[1 := row], 0);
    HoldingBalanced(row, 0);
    PendingOutranksUnset(row, Delivered(Unset, 0));
    l' := OneEventIngests(row, 0, Unset);
    StaleEventUnbalances(row, 0, Unset, l');
    OutrankedEventNotStored(row, 0, Unset, l');
  }

  lemma TwoRowsSum(x: BalanceEvent, y: BalanceEvent, k: BalanceKey)
    ensures StoredSum(map[1 := x, 2 := y], k) == x.Weight(k) + y.Weight(k)
  {
    OneRowSum(x, 1, k);
    StoredSumUpdate(map[1 := x], 2, y, k);
    assert map[1 := x, 2 := y] == map[1 := x][2 := y];
  }

  lemma TwoRowsBalanced(x: BalanceEvent, y: BalanceEvent)
    requires x == Received(1, "x", 5, true, Confirmed) && y == Received(2, "y", 7, true, Confirmed)
    ensures Balanced(Holding(map[1 := x, 2 := y], 12))
  {
    forall k ensures Drift(Holding(map[1 := x, 2 := y], 12), k) == 0 { TwoRowsSum(x, y, k); }
  }

  lemma TwoReversals(x: BalanceEvent, y: BalanceEvent)
    requires x == Received(1, "x", 5, true, Confirmed) && y == Received(2, "y", 7, true, Confirmed)
    ensures Reversals(Rows([1, 2], map[1 := x, 2 := y])) == [Item(x, Liquid, -5), Item(y, Liquid, -7)]
  {
    assert Rows([1, 2], map[1 := x, 2 := y]) == [x, y];
    assert [x, y][..1] == [x] && [x][..0] == [];
    assert Reversals([x]) == ReversalOf(x);
  }

  /** The database may pick the first of two reversals for the row they share. */
  lemma FirstPicked(x: AdjustItem, y: AdjustItem, before: Balance)
    requires x.key == KEY && y.key == KEY
    ensures BulkAdjusted(map[KEY := before], [x, y], map[KEY := Applied(Some(before), x)])
  {
    var b, b', items := map[KEY := before], map[KEY := Applied(Some(before), x)], [x, y];
    assert items[0] in items;
    forall k ensures RowAdjusted(Row(b, k), items, k, Row(b', k)) {
    }
  }

  /** Two applied events of one balance, purged by the bulk statement: only one of them is reversed. */
  lemma BulkPurgeReversesOnlyOne() returns (l: Tables, l': Tables)
    ensures l == Holding(map[1 := Received(1, "x", 5, true, Confirmed), 2 := Received(2, "y", 7, true, Confirmed)], 12)
    ensures Balanced(l) && PurgeCommits(BulkStatement, l, 10, [1, 2], l')
    ensures l'.events == map[] && Amount(l'.balances, KEY) == 7
  {
    var x, y := Received(1, "x", 5, true, Confirmed), Received(2, "y", 7, true, Confirmed);
    l := Holding(map[1 := x, 2 := y], 12);
    TwoRowsBalanced(x, y);
    TwoReversals(x, y);
    FirstPicked(Item(x, Liquid, -5), Item(y, Liquid, -7), l.balances[KEY]);
    assert From(l.events, 10) == {1, 2};
    l' := Purged(l, 10, map[KEY := Applied(Some(l.balances[KEY]), Item(x, Liquid, -5))]);
    assert l'.events == map[];
  }

  // ----- The bulk statement on promotions and on forward ingests -----

  lemma PendingBalanced(x: BalanceEvent, y: BalanceEvent)
    requires !x.applied && !y.applied
    ensures Balanced(Holding(map[1 := x, 2 := y], 0))
  {
    forall k ensures Drift(Holding(map[1 := x, 2 := y], 0), k) == 0 { TwoRowsSum(x, y, k); }
  }

  lemma TwoFinalised(x: BalanceEvent, y: BalanceEvent)
    requires x == Received(1, "x", 5, false, Finalized) && y == Received(2, "y", 7, false, Finalized)
    ensures Finalised(map[1 := x.(finality := Pending), 2 := y.(finality := Pending)], 10) == map[1 := x, 2 := y]
    ensures Promotable(map[1 := x, 2 := y], 10) == {1, 2}
  {
  }

  lemma TwoPromotions(x: BalanceEvent, y: BalanceEvent)
    requires x == Received(1, "x", 5, false, Finalized) && y == Received(2, "y", 7, false, Finalized)
    ensures Promotions(Rows([1, 2], map[1 := x, 2 := y])) == [Item(x, Liquid, 5), Item(y, Liquid, 7)]
  {
    assert Rows([1, 2], map[1 := x, 2 := y]) == [x, y];
    assert [x, y][..1] == [x] && [x][..0] == [];
    assert Promotions([x]) == PromotionOf(x);
  }

  /** Two pending events of one balance, promoted by the bulk statement: both rows are marked, one is added. */
  lemma BulkPromotionAddsOnlyOne() returns (l: Tables, l': Tables)
    ensures l == Holding(map[1 := Received(1, "x", 5, false, Pending), 2 := Received(2, "y", 7, false, Pending)], 0)
    ensures Balanced(l) && PromoteCommits(BulkStatement, l, 10, [1, 2], l')
    ensures l'.events ==
            map[1 := Received(1, "x", 5, true, Finalized), 2 := Received(2, "y", 7, true, Finalized)]
    ensures Amount(l'.balances, KEY) == 5 && Drift(l', KEY) == -7
  {
    var x, y := Received(1, "x", 5, false, Finalized), Received(2, "y", 7, false, Finalized);
    l := Holding(map[1 := x.(finality := Pending), 2 := y.(finality := Pending)], 0);
    PendingBalanced(x.(finality := Pending), y.(finality := Pending));
    var t := map[1 := x, 2 := y];
    TwoFinalised(x, y);
    TwoPromotions(x, y);
    FirstPicked(Item(x, Liquid, 5), Item(y, Liquid, 7), l.balances[KEY]);
    l' := Tables(WithApplied(t, {1, 2}), map[KEY := Applied(Some(l.balances[KEY]), Item(x, Liquid, 5))],
                 l.transactions, FinalisedBlocks(l.blocks, 10), l.watermark);
    assert l'.events == map[1 := x.(applied := true), 2 := y.(applied := true)];
    TwoRowsSum(x.(applied := true), y.(applied := true), KEY);
  }

  /** An event of an unwatched address whose counterparty is watched. */
  function Sent(id: Uuid, eventId: string, counterparty: Address, delta: int): DecodedEvent {
    DecodedEvent(id, eventId, "c", "tx", "addr", counterparty, Deposit, delta, Native, Confirmed, 10, false)
  }

  /** A block-scan batch with two events of one unwatched address and two watched counterparties. */
  function TwoCounterparties(p: Address, q: Address, u: string, v: string): Batch {
    Batch(Ethereum, true, "", Owner(None, None), map[p := Owner(Some(u), None), q := Owner(Some(v), None)],
          map["c" := "token"], {"tx"}, [Sent(1, "x", p, 5), Sent(2, "y", q, 7)], map["tx" := 10], map[], 10)
  }

  /** The row stored for an event resolved to the watched address `watched` of wallet `wallet`. */
  function Resolved(
    id: Uuid, eventId: string, watched: Address, wallet: string, delta: int, before: int): BalanceEvent
  {
    BalanceEvent(id, eventId, "tx", "token", Deposit, "addr", delta, watched, Some(wallet), None, 10, true, Confirmed,
                 Some(before), Some(before + delta))
  }

  lemma FirstStep(p: Address, q: Address, u: string, v: string, s: Build)
    requires p != "" && q != "" && p != q && p != "addr" && q != "addr"
    requires s.denied == {} && s.models == [] && s.deltas == map[] && Accumulated(s.balances, KEY).amount == 0
    ensures Step(TwoCounterparties(p, q, u, v), s, Sent(1, "x", p, 5)) ==
            Some(Build(s.balances[KEY := Accum(5, true)], {}, [Resolved(1, "x", p, u, 5, 0)],
                       map[AdjustKey(KEY, u, "") := AdjustAccum(5, 10, "tx")]))
  {
    var b, e := TwoCounterparties(p, q, u, v), Sent(1, "x", p, 5);
    assert e.address !in b.owners && e.counterparty in b.owners;
    assert Resolve(b, e) == (Owner(Some(u), None), p);
    assert Model(b, e, "token", 0) == Resolved(1, "x", p, u, 5, 0);
    assert s.models + [Resolved(1, "x", p, u, 5, 0)] == [Resolved(1, "x", p, u, 5, 0)];
    assert map[][AdjustKey(KEY, u, "") := AdjustAccum(5, 10, "tx")] ==
      map[AdjustKey(KEY, u, "") := AdjustAccum(5, 10, "tx")];
  }

  lemma SecondStep(p: Address, q: Address, u: string, v: string, s: Build)
    requires p != "" && q != "" && p != q && p != "addr" && q != "addr" && u != v
    requires s.denied == {} && s.models == [Resolved(1, "x", p, u, 5, 0)]
    requires s.deltas == map[AdjustKey(KEY, u, "") := AdjustAccum(5, 10, "tx")]
    requires Accumulated(s.balances, KEY).amount == 5
    ensures Step(TwoCounterparties(p, q, u, v), s, Sent(2, "y", q, 7)) ==
            Some(Build(s.balances[KEY := Accum(12, true)], {},
                       [Resolved(1, "x", p, u, 5, 0), Resolved(2, "y", q, v, 7, 5)],
                       map[AdjustKey(KEY, u, "") := AdjustAccum(5, 10, "tx"),
                           AdjustKey(KEY, v, "") := AdjustAccum(7, 10, "tx")]))
  {
    var b, e := TwoCounterparties(p, q, u, v), Sent(2, "y", q, 7);
    var x, y := Resolved(1, "x", p, u, 5, 0), Resolved(2, "y", q, v, 7, 5);
    assert e.address !in b.owners && e.counterparty in b.owners;
    assert Resolve(b, e) == (Owner(Some(v), None), q);
    assert Model(b, e, "token", 5) == y;
    assert s.models + [y] == [x, y];
    assert AdjustKey(KEY, v, "") !in s.deltas;
  }

  lemma TwoPrefetched(p: Address, q: Address, u: string, v: string)
    ensures Prefetch(Holding(map[], 0).balances, TwoCounterparties(p, q, u, v)) == map[KEY := Accum(0, true)]
  {
    var l, b := Holding(map[], 0), TwoCounterparties(p, q, u, v);
    assert b.events[0] in b.events;
    forall e | e in b.events ensures BalanceKey(e.address, b.tokenIds[e.contract], Liquid) == KEY {
    }
  }

  lemma BuildTwo(b: Batch, s: Build, e: DecodedEvent, f: DecodedEvent)
    requires Step(b, s, e).Some?
    ensures BuildAll(b, s, [e, f]) == Step(b, Step(b, s, e).value, f)
  {
    assert [] + [e] == [e] && [e] + [f] == [e, f];
    BuildAllExtend(b, s, [], e);
    BuildAllExtend(b, s, [e], f);
  }

  lemma TwoCounterpartiesBuild(p: Address, q: Address, u: string, v: string)
    requires p != "" && q != "" && p != q && p != "addr" && q != "addr" && u != v
    ensures
      var r := BuildOf(Holding(map[], 0), TwoCounterparties(p, q, u, v), {});
      && r.Some?
      && r.value.models == [Resolved(1, "x", p, u, 5, 0), Resolved(2, "y", q, v, 7, 5)]
      && r.value.deltas == map[AdjustKey(KEY, u, "") := AdjustAccum(5, 10, "tx"),
                               AdjustKey(KEY, v, "") := AdjustAccum(7, 10, "tx")]
  {
    var l, b := Holding(map[], 0), TwoCounterparties(p, q, u, v);
    var s := Start(l.balances, b, {});
    TwoPrefetched(p, q, u, v);
    FirstStep(p, q, u, v, s);
    SecondStep(p, q, u, v, Step(b, s, Sent(1, "x", p, 5)).value);
    BuildTwo(b, s, Sent(1, "x", p, 5), Sent(2, "y", q, 7));
  }

  lemma TwoInserts(x: BalanceEvent, y: BalanceEvent)
    requires x.id == 1 && y.id == 2 && x.eventId != y.eventId
    ensures UpsertAll(map[], [x, y]) == Some(map[1 := x, 2 := y])
  {
    var empty, one, two: EventTable := map[], map[1 := x], map[1 := x, 2 := y];
    assert !Named(empty, x.eventId) && empty[1 := x] == one && Upsert(empty, x) == Some(one);
    assert !Named(one, y.eventId) && one[2 := y] == two && Upsert(one, y) == Some(two);
    assert [x, y][1..] == [y] && [y][1..] == [];
    assert UpsertAll(one, [y]) == UpsertAll(two, []) == Some(two);
  }

  lemma TwoItems(x: AdjustKey, y: AdjustKey, deltas: map<AdjustKey, AdjustAccum>)
    requires x != y && deltas.Keys == {x, y}
    ensures Enumerates([x, y], deltas.Keys)
    ensures Items([x, y], deltas) == [ItemOf(x, deltas[x]), ItemOf(y, deltas[y])]
  {
    assert [x, y][..1] == [x] && [x][..0] == [];
    assert Items([x], deltas) == [ItemOf(x, deltas[x])];
  }

  /** Two watched counterparties of one unwatched address in a bulk ingest: both events stored, one added. */
  lemma BulkIngestAddsOnlyOne(p: Address, q: Address, u: string, v: string) returns (l: Tables, l': Tables)
    requires p != "" && q != "" && p != q && p != "addr" && q != "addr" && u != v
    ensures
      var keys := [AdjustKey(KEY, u, ""), AdjustKey(KEY, v, "")];
      l == Holding(map[], 0) && IngestCommits(BulkStatement, l, TwoCounterparties(p, q, u, v), {}, keys, l')
    ensures Balanced(l) && Amount(l'.balances, KEY) == 5 && Drift(l', KEY) == -7
  {
    var x, y := Resolved(1, "x", p, u, 5, 0), Resolved(2, "y", q, v, 7, 5);
    var b := TwoCounterparties(p, q, u, v);
    l := Holding(map[], 0);
    forall k ensures Drift(l, k) == 0 { assert Weights(map[], k) == map[]; }
    TwoCounterpartiesBuild(p, q, u, v);
    var deltas := BuildOf(l, b, {}).value.deltas;
    var xk, yk := AdjustKey(KEY, u, ""), AdjustKey(KEY, v, "");
    var i, j := ItemOf(xk, deltas[xk]), ItemOf(yk, deltas[yk]);
    TwoItems(xk, yk, deltas);
    BulkUpsertExact(l.events, [x, y]);
    TwoInserts(x, y);
    FirstPicked(i, j, l.balances[KEY]);
    l' := Tables(map[1 := x, 2 := y], map[KEY := Applied(Some(l.balances[KEY]), i)], b.transactions + l.transactions,
                 l.blocks + b.blocks, Advanced(l.watermark, b.newSequence));
    TwoRowsSum(x, y, KEY);
  }
}
