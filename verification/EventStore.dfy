/** `balance_events` upserts keyed by event id, with the finality-ranked conflict rule. */
module EventStore {
  import opened Sums
  import opened Ledger

  const SMALL_BATCH: nat := 5
  const BULK_CHUNK: nat := 1500

  /** Some stored row carries this non-empty event id. */
  predicate Named(t: EventTable, eventId: string) {
    eventId != "" && exists i | i in t :: t[i].eventId == eventId
  }

  /** The row an insert of `e` conflicts with. */
  ghost function ConflictRow(t: EventTable, e: BalanceEvent): (i: Uuid)
    requires Named(t, e.eventId)
    ensures i in t && t[i].eventId == e.eventId
  {
    var i :| i in t && t[i].eventId == e.eventId;
    i
  }

  predicate Wins(row: BalanceEvent, e: BalanceEvent) {
    StoreRank(e.finality) >= StoreRank(row.finality)
  }

  /** DO UPDATE SET: identity columns such as the delta keep their stored values. */
  function Merge(row: BalanceEvent, e: BalanceEvent): BalanceEvent {
    row.(finality := e.finality, applied := row.applied || e.applied, cursor := Max(row.cursor, e.cursor))
  }

  datatype UpsertResult = Inserted(id: Uuid) | Updated(id: Uuid) | Rejected | Duplicate

  /** What one VALUES row of an INSERT .. ON CONFLICT does to the table. */
  ghost function UpsertKind(t: EventTable, e: BalanceEvent): UpsertResult {
    if !Named(t, e.eventId) then
      if e.id in t then Duplicate else Inserted(e.id)
    else if Wins(t[ConflictRow(t, e)], e) then Updated(ConflictRow(t, e))
    else Rejected
  }

  ghost function Upsert(t: EventTable, e: BalanceEvent): (r: Option<EventTable>)
    ensures r.Some? ==> t.Keys <= r.value.Keys
    ensures Unique(t) && r.Some? ==> Unique(r.value)
  {
    match UpsertKind(t, e)
    case Inserted(i) =>
      Some(t[i := e])
    case Updated(i) => Some(t[i := Merge(t[i], e)])
    case Rejected => Some(t)
    case Duplicate => None
  }

  /** Folding the single-row statement over a list. */
  ghost function UpsertAll(t: EventTable, es: seq<BalanceEvent>): (r: Option<EventTable>)
    ensures Unique(t) && r.Some? ==> Unique(r.value)
    decreases |es|
  {
    if es == [] then Some(t)
    else match Upsert(t, es[0])
      case None => None
      case Some(t') => UpsertAll(t', es[1..])
  }

  /** One multi-row statement. A row the same statement already wrote cannot be written again. */
  ghost function UpsertStatement(t: EventTable, es: seq<BalanceEvent>, touched: set<Uuid>): (r: Option<EventTable>)
    decreases |es|
  {
    if es == [] then Some(t)
    else match UpsertKind(t, es[0])
      case Duplicate => None
      case Rejected =>
        if ConflictRow(t, es[0]) in touched then None else UpsertStatement(t, es[1..], touched)
      case Inserted(i) => UpsertStatement(t[i := es[0]], es[1..], touched + {i})
      case Updated(i) =>
        if i in touched then None else UpsertStatement(t[i := Merge(t[i], es[0])], es[1..], touched + {i})
  }

  ghost function UpsertChunks(t: EventTable, es: seq<BalanceEvent>): (r: Option<EventTable>)
    decreases |es|
  {
    if es == [] then Some(t)
    else
      var n := if |es| < BULK_CHUNK then |es| else BULK_CHUNK;
      match UpsertStatement(t, es[..n], {})
      case None => None
      case Some(t') => UpsertChunks(t', es[n..])
  }

  /** BulkUpsertTx: one statement for a small batch, otherwise one per chunk; None aborts the transaction. */
  ghost function BulkUpsert(t: EventTable, es: seq<BalanceEvent>): (r: Option<EventTable>) {
    if |es| <= SMALL_BATCH then UpsertStatement(t, es, {}) else UpsertChunks(t, es)
  }

  lemma {:induction false} UpsertAllSplit(t: EventTable, es: seq<BalanceEvent>, n: nat)
    requires n <= |es|
    ensures UpsertAll(t, es) ==
            match UpsertAll(t, es[..n]) { case None => None case Some(t') => UpsertAll(t', es[n..]) }
    decreases n
  {
    if n == 0 {
      assert es[..0] == [] && es[0..] == es;
    } else {
      assert es[..n][0] == es[0] && es[..n][1..] == es[1..][..n - 1] && es[1..][n - 1..] == es[n..];
      match Upsert(t, es[0])
      case None =>
      case Some(t') => UpsertAllSplit(t', es[1..], n - 1);
    }
  }

  /** A multi-row statement that succeeds stores what folding the single-row statement stores. */
  lemma {:induction false} StatementIsFold(t: EventTable, es: seq<BalanceEvent>, touched: set<Uuid>)
    ensures UpsertStatement(t, es, touched).Some? ==> UpsertStatement(t, es, touched) == UpsertAll(t, es)
    decreases |es|
  {
    if es != [] {
      match UpsertKind(t, es[0])
      case Duplicate =>
      case Rejected => StatementIsFold(t, es[1..], touched);
      case Inserted(i) => StatementIsFold(t[i := es[0]], es[1..], touched + {i});
      case Updated(i) => StatementIsFold(t[i := Merge(t[i], es[0])], es[1..], touched + {i});
    }
  }

  lemma {:induction false} ChunksAreFold(t: EventTable, es: seq<BalanceEvent>)
    ensures UpsertChunks(t, es).Some? ==> UpsertChunks(t, es) == UpsertAll(t, es)
    decreases |es|
  {
    if es != [] {
      var n := if |es| < BULK_CHUNK then |es| else BULK_CHUNK;
      StatementIsFold(t, es[..n], {});
      UpsertAllSplit(t, es, n);
      match UpsertStatement(t, es[..n], {})
      case None =>
      case Some(t') => ChunksAreFold(t', es[n..]);
    }
  }

  /** Whatever the batch size and chunking, a bulk upsert that does not abort is the fold of UpsertTx. */
  lemma BulkUpsertIsFold(t: EventTable, es: seq<BalanceEvent>)
    ensures BulkUpsert(t, es).Some? ==> BulkUpsert(t, es) == UpsertAll(t, es)
  {
    StatementIsFold(t, es, {});
    ChunksAreFold(t, es);
  }

  /** No two events of the list carry the same non-empty event id. */
  ghost predicate DistinctIds(es: seq<BalanceEvent>) {
    forall i, j | 0 <= i < j < |es| && es[i].eventId == es[j].eventId :: es[i].eventId == ""
  }

  lemma {:induction false} StatementExact(t: EventTable, es: seq<BalanceEvent>, touched: set<Uuid>)
    requires DistinctIds(es)
    requires forall i | i in touched :: i in t && forall e | e in es && e.eventId == t[i].eventId :: e.eventId == ""
    ensures UpsertStatement(t, es, touched) == UpsertAll(t, es)
    decreases |es|
  {
    if es != [] {
      var e := es[0];
      assert e in es;
      forall x | x in es[1..] ensures x in es && (x.eventId == e.eventId ==> x.eventId == "") {
        var j :| 0 <= j < |es[1..]| && es[1..][j] == x;
        assert es[j + 1] == x;
      }
      match UpsertKind(t, e)
      case Duplicate =>
      case Rejected => StatementExact(t, es[1..], touched);
      case Inserted(i) => StatementExact(t[i := e], es[1..], touched + {i});
      case Updated(i) => StatementExact(t[i := Merge(t[i], e)], es[1..], touched + {i});
    }
  }

  lemma {:induction false} ChunksExact(t: EventTable, es: seq<BalanceEvent>)
    requires DistinctIds(es)
    ensures UpsertChunks(t, es) == UpsertAll(t, es)
    decreases |es|
  {
    if es != [] {
      var n := if |es| < BULK_CHUNK then |es| else BULK_CHUNK;
      assert DistinctIds(es[..n]);
      assert DistinctIds(es[n..]) by {
        forall i, j | 0 <= i < j < |es[n..]| && es[n..][i].eventId == es[n..][j].eventId
          ensures es[n..][i].eventId == ""
        {
          assert es[n..][i] == es[n + i] && es[n..][j] == es[n + j];
        }
      }
      StatementExact(t, es[..n], {});
      UpsertAllSplit(t, es, n);
      match UpsertStatement(t, es[..n], {})
      case None =>
      case Some(t') => ChunksExact(t', es[n..]);
    }
  }

  /** For distinct ids, chunking neither aborts nor changes anything: the bulk path is exactly the fold. */
  lemma BulkUpsertExact(t: EventTable, es: seq<BalanceEvent>)
    requires DistinctIds(es)
    ensures BulkUpsert(t, es) == UpsertAll(t, es)
  {
    StatementExact(t, es, {});
    ChunksExact(t, es);
  }

  /** The strongest store rank offered for `eventId`, starting from `floor`. */
  function MaxRank(es: seq<BalanceEvent>, eventId: string, floor: int): int {
    if es == [] then floor
    else MaxRank(es[1..], eventId, if es[0].eventId == eventId then Max(floor, StoreRank(es[0].finality)) else floor)
  }

  /**
   * Over every sequence of upserts a stored row keeps its identity, its finality rank becomes the
   * strongest offered, its applied flag never reverts and its block cursor never decreases.
   */
  lemma {:induction false} RowHistory(t: EventTable, es: seq<BalanceEvent>, i: Uuid)
    requires Unique(t) && i in t && t[i].eventId != ""
    requires UpsertAll(t, es).Some?
    ensures
      var t' := UpsertAll(t, es).value;
      && i in t'
      && t'[i] == t[i].(finality := t'[i].finality, applied := t'[i].applied, cursor := t'[i].cursor)
      && StoreRank(t'[i].finality) == MaxRank(es, t[i].eventId, StoreRank(t[i].finality))
      && (t[i].applied ==> t'[i].applied)
      && t'[i].cursor >= t[i].cursor
    decreases |es|
  {
    if es != [] {
      var e := es[0];
      var t1 := Upsert(t, e).value;
      if e.eventId == t[i].eventId {
        assert Named(t, e.eventId);
        assert ConflictRow(t, e) == i;
      }
      RowHistory(t1, es[1..], i);
    }
  }

  /** The database knows four states, finalized before safe before confirmed before pending; all others rank last. */
  lemma StoreOrder(row: BalanceEvent, e: BalanceEvent)
    ensures e.finality == Finalized ==> Wins(row, e)
    ensures e.finality == Safe ==> (Wins(row, e) <==> row.finality != Finalized)
    ensures e.finality == Confirmed ==> (Wins(row, e) <==> row.finality != Finalized && row.finality != Safe)
    ensures e.finality == Pending ==>
      (Wins(row, e) <==> row.finality != Finalized && row.finality != Safe && row.finality != Confirmed)
    ensures e.finality !in {Finalized, Safe, Confirmed, Pending} ==>
      (Wins(row, e) <==> row.finality !in {Finalized, Safe, Confirmed, Pending})
  {
  }
}
