/** Keyset paging over the events of a purge, and enumerations computed by loops. */
module Paging {
  import opened Sums
  import opened Ledger
  import opened LedgerSteps

  const ROLLBACK_BATCH: nat := 1000

  ghost function SomeMember<T>(s: set<T>): (x: T)
    requires s != {}
    ensures x in s
  {
    var x :| x in s;
    x
  }

  lemma {:induction false} LeastExists(s: set<int>)
    requires s != {}
    ensures exists m :: m in s && forall x | x in s :: m <= x
    decreases |s|
  {
    var y := SomeMember(s);
    var rest := s - {y};
    if rest == {} {
      assert s == {y};
    } else {
      LeastExists(rest);
      var m :| m in rest && forall x | x in rest :: m <= x;
      var least := if m <= y then m else y;
      assert least in s;
      forall x | x in s ensures least <= x { assert x == y || x in rest; }
    }
  }

  ghost predicate Ascending(s: seq<int>) {
    forall i, j | 0 <= i < j < |s| :: s[i] < s[j]
  }

  /** The rows a page may still return: those of the purge with an id after `last`. */
  function After(t: EventTable, fromBlock: int, last: Uuid): set<Uuid> {
    set i | i in From(t, fromBlock) && i > last
  }

  /** fetchRollbackBatch: ORDER BY id ASC LIMIT n, of the rows with id > `last`. */
  method FetchRollbackBatch(t: EventTable, fromBlock: int, last: Uuid, limit: nat) returns (page: seq<Uuid>)
    ensures |page| <= limit && Ascending(page)
    ensures forall n | 0 <= n < |page| :: page[n] in After(t, fromBlock, last)
    ensures forall i | i in After(t, fromBlock, last) ::
      i in page || (|page| == limit && forall n | 0 <= n < |page| :: page[n] < i)
    ensures |page| < limit ==> forall i | i in After(t, fromBlock, last) :: i in page
  {
    page := [];
    var rest := After(t, fromBlock, last);
    while |page| < limit && rest != {}
      invariant |page| <= limit && Ascending(page)
      invariant rest <= After(t, fromBlock, last)
      invariant forall n | 0 <= n < |page| :: page[n] in After(t, fromBlock, last)
      invariant forall i | i in rest :: forall n | 0 <= n < |page| :: page[n] < i
      invariant forall i | i in After(t, fromBlock, last) :: i in rest || i in page
      decreases rest
    {
      LeastExists(rest);
      var m :| m in rest && forall x | x in rest :: m <= x;
      page := page + [m];
      rest := rest - {m};
    }
  }

  lemma LaterIsFewer(t: EventTable, fromBlock: int, last: Uuid, next: Uuid)
    requires next in After(t, fromBlock, last)
    ensures After(t, fromBlock, next) < After(t, fromBlock, last)
  {
    assert next !in After(t, fromBlock, next);
  }

  /** The pages so far hold the rows up to `last`, ascending; the rows after it are still to come. */
  ghost predicate PagedTo(t: EventTable, fromBlock: int, order: seq<Uuid>, last: Uuid) {
    && Ascending(order)
    && (forall n | 0 <= n < |order| :: order[n] <= last && order[n] in After(t, fromBlock, NIL_UUID))
    && forall i | i in After(t, fromBlock, NIL_UUID) :: i in order || i in After(t, fromBlock, last)
  }

  lemma PagesAscend(t: EventTable, fromBlock: int, order: seq<Uuid>, page: seq<Uuid>, last: Uuid)
    requires PagedTo(t, fromBlock, order, last) && last >= NIL_UUID && Ascending(page)
    requires forall n | 0 <= n < |page| :: page[n] in After(t, fromBlock, last)
    ensures Ascending(order + page)
    ensures forall n | 0 <= n < |order + page| :: (order + page)[n] in After(t, fromBlock, NIL_UUID)
  {
  }

  lemma NextPage(t: EventTable, fromBlock: int, order: seq<Uuid>, page: seq<Uuid>, last: Uuid)
    requires PagedTo(t, fromBlock, order, last) && last >= NIL_UUID && Ascending(page) && page != []
    requires forall n | 0 <= n < |page| :: page[n] in After(t, fromBlock, last)
    requires forall i | i in After(t, fromBlock, last) :: i in page || page[|page| - 1] < i
    ensures PagedTo(t, fromBlock, order + page, page[|page| - 1])
  {
    PagesAscend(t, fromBlock, order, page, last);
    forall i | i in After(t, fromBlock, NIL_UUID)
      ensures i in order + page || i in After(t, fromBlock, page[|page| - 1])
    {
      assert i in order + page <==> i in order || i in page;
    }
  }

  lemma LastPage(t: EventTable, fromBlock: int, order: seq<Uuid>, page: seq<Uuid>, last: Uuid)
    requires PagedTo(t, fromBlock, order, last) && last >= NIL_UUID && Ascending(page)
    requires forall n | 0 <= n < |page| :: page[n] in After(t, fromBlock, last)
    requires forall i | i in After(t, fromBlock, last) :: i in page
    ensures Ascending(order + page) && Enumerates(order + page, After(t, fromBlock, NIL_UUID))
  {
    PagesAscend(t, fromBlock, order, page, last);
    forall i ensures i in order + page <==> i in After(t, fromBlock, NIL_UUID) {
      assert i in order + page <==> i in order || i in page;
    }
  }

  /** fetchRollbackEvents: pages until a short one, resuming after the last id seen. */
  method FetchRollbackEvents(t: EventTable, fromBlock: int) returns (order: seq<Uuid>)
    ensures Ascending(order)
    ensures Enumerates(order, After(t, fromBlock, NIL_UUID))
  {
    order := [];
    var last := NIL_UUID;
    while true
      invariant PagedTo(t, fromBlock, order, last) && last >= NIL_UUID
      decreases After(t, fromBlock, last)
    {
      var page := FetchRollbackBatch(t, fromBlock, last, ROLLBACK_BATCH);
      if |page| < ROLLBACK_BATCH {
        LastPage(t, fromBlock, order, page, last);
        order := order + page;
        return;
      }
      NextPage(t, fromBlock, order, page, last);
      order := order + page;
      LaterIsFewer(t, fromBlock, last, page[|page| - 1]);
      last := page[|page| - 1];
    }
    assert false;
  }

  /** With no nil id stored, paging visits every row of the purge exactly once. */
  lemma PagingCoversPurge(t: EventTable, fromBlock: int)
    requires forall i | i in t :: i > NIL_UUID
    ensures After(t, fromBlock, NIL_UUID) == From(t, fromBlock)
  {
  }

  /** Some order in which the elements of a finite set may be visited. */
  method Enumerate<T>(s: set<T>) returns (order: seq<T>)
    ensures Enumerates(order, s)
  {
    order := [];
    var rest := s;
    while rest != {}
      invariant rest <= s && NoDuplicates(order)
      invariant forall n | 0 <= n < |order| :: order[n] in s && order[n] !in rest
      invariant forall x | x in s :: x in rest || x in order
      decreases rest
    {
      var x :| x in rest;
      order := order + [x];
      rest := rest - {x};
    }
  }
}
