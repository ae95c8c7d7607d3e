/** Purge undoes ingest: what comes back after a purge, and exactly when. */
module PurgeLaws {
  import opened Sums
  import opened Ledger
  import opened EventStore
  import opened BalanceStore
  import opened EventBuilder
  import opened LedgerSteps
  import opened LedgerRuns

  // ----- Purge undoes ingest -----

  ghost predicate AllFrom(b: Batch, fromBlock: int) {
    && (forall e | e in b.events :: e.cursor >= fromBlock)
    && (forall h | h in b.transactions :: b.transactions[h] >= fromBlock)
    && (forall n | n in b.blocks :: n >= fromBlock)
  }

  ghost predicate AllBelow(l: Tables, fromBlock: int) {
    && (forall i | i in l.events :: l.events[i].cursor < fromBlock)
    && (forall h | h in l.transactions :: l.transactions[h] < fromBlock)
    && (forall n | n in l.blocks :: n < fromBlock)
  }

  ghost predicate CursorsFrom(es: seq<BalanceEvent>, fromBlock: int) {
    forall e | e in es :: e.cursor >= fromBlock
  }

  lemma {:induction false} ModelCursors(b: Batch, s: Build, events: seq<DecodedEvent>, fromBlock: int)
    requires BuildAll(b, s, events).Some? && CursorsFrom(s.models, fromBlock)
    requires forall e | e in events :: e.cursor >= fromBlock
    ensures CursorsFrom(BuildAll(b, s, events).value.models, fromBlock)
    decreases |events|
  {
    if events != [] {
      var s' := Step(b, s, events[0]).value;
      assert events[0] in events && forall e | e in events[1..] :: e in events;
      ModelCursors(b, s', events[1..], fromBlock);
    }
  }

  function Below(t: EventTable, fromBlock: int): EventTable {
    t - From(t, fromBlock)
  }

  /** Some event of the list takes over a row of `t0`. */
  ghost predicate TakesOver(t0: EventTable, e: BalanceEvent) {
    Named(t0, e.eventId) && Wins(t0[ConflictRow(t0, e)], e)
  }

  ghost predicate NoneTakesOver(t0: EventTable, es: seq<BalanceEvent>) {
    forall e | e in es :: !TakesOver(t0, e)
  }

  /** Every row of `t0` is still there, and is itself wherever it still lies below the block. */
  ghost predicate Remnant(t0: EventTable, t: EventTable, fromBlock: int) {
    && Unique(t0) && Unique(t)
    && (forall i | i in t0 :: t0[i].cursor < fromBlock && i in t && t[i].eventId == t0[i].eventId)
    && (forall i | i in t && t[i].cursor < fromBlock :: i in t0 && t[i] == t0[i])
  }

  ghost predicate Intact(t0: EventTable, t: EventTable, fromBlock: int)
    requires Remnant(t0, t, fromBlock)
  {
    forall i | i in t0 :: t[i].cursor < fromBlock
  }

  lemma IntactIsBelow(t0: EventTable, t: EventTable, fromBlock: int)
    requires Remnant(t0, t, fromBlock)
    ensures Intact(t0, t, fromBlock) <==> Below(t, fromBlock) == t0
  {
    if Intact(t0, t, fromBlock) {
      forall i ensures i in Below(t, fromBlock) <==> i in t0 {
        if i in Below(t, fromBlock) { assert i in t && i !in From(t, fromBlock) && t[i].cursor < fromBlock; }
        if i in t0 { assert i in t && i !in From(t, fromBlock); }
      }
      assert forall i | i in t0 :: Below(t, fromBlock)[i] == t0[i];
    } else {
      var i :| i in t0 && t[i].cursor >= fromBlock;
      assert i !in Below(t, fromBlock);
    }
  }

  lemma UpsertRemnant(t0: EventTable, t: EventTable, e: BalanceEvent, fromBlock: int)
    requires Remnant(t0, t, fromBlock) && e.cursor >= fromBlock && Upsert(t, e).Some?
    ensures
      var t' := Upsert(t, e).value;
      && Remnant(t0, t', fromBlock)
      && (Intact(t0, t', fromBlock) <==> Intact(t0, t, fromBlock) && !TakesOver(t0, e))
  {
    var t' := Upsert(t, e).value;
    assert forall i | i in t0 :: i in t' && (t'[i] == t[i] || t'[i].cursor >= fromBlock);
    if Named(t0, e.eventId) {
      var i := ConflictRow(t0, e);
      assert i in t && t[i].eventId == e.eventId;
      assert ConflictRow(t, e) == i;
      assert forall j | j in t0 && j != i :: t'[j] == t[j];
      if t[i].cursor < fromBlock {
        assert t[i] == t0[i];
      }
    } else {
      assert forall j | j in t0 :: t[j].eventId != e.eventId || e.eventId == "";
      assert forall j | j in t0 :: t'[j] == t[j];
    }
  }

  lemma {:induction false} UpsertAllRemnant(t0: EventTable, t: EventTable, es: seq<BalanceEvent>, fromBlock: int)
    requires Remnant(t0, t, fromBlock) && CursorsFrom(es, fromBlock) && UpsertAll(t, es).Some?
    ensures
      var t' := UpsertAll(t, es).value;
      && Remnant(t0, t', fromBlock)
      && (Intact(t0, t', fromBlock) <==> Intact(t0, t, fromBlock) && NoneTakesOver(t0, es))
    decreases |es|
  {
    if es != [] {
      assert es[0] in es && forall e | e in es[1..] :: e in es;
      UpsertRemnant(t0, t, es[0], fromBlock);
      UpsertAllRemnant(t0, Upsert(t, es[0]).value, es[1..], fromBlock);
      assert NoneTakesOver(t0, es) <==> !TakesOver(t0, es[0]) && NoneTakesOver(t0, es[1..]);
    }
  }

  /** A run of batches whose contents all lie at or above the block, starting below it. */
  ghost predicate IngestRun(mode: Mode, states: seq<Tables>, actions: seq<Action>, fromBlock: int) {
    && Run(mode, states, actions)
    && Unique(states[0].events)
    && AllBelow(states[0], fromBlock)
    && forall i | 0 <= i < |actions| ::
      actions[i].Aborted? || (actions[i].Ingest? && AllFrom(actions[i].batch, fromBlock))
  }

  ghost predicate OldRowsKept(l0: Tables, l: Tables, fromBlock: int) {
    && (forall h | h in l0.transactions :: h in l.transactions && l.transactions[h] == l0.transactions[h])
    && (forall h | h in l.transactions :: h in l0.transactions || l.transactions[h] >= fromBlock)
    && (forall n | n in l0.blocks :: n in l.blocks && l.blocks[n] == l0.blocks[n])
    && (forall n | n in l.blocks :: n in l0.blocks || n >= fromBlock)
  }

  lemma IngestStepRemnant(mode: Mode, l0: Tables, l: Tables, a: Action, l': Tables, fromBlock: int)
    requires Remnant(l0.events, l.events, fromBlock) && AllBelow(l0, fromBlock) && OldRowsKept(l0, l, fromBlock)
    requires Next(mode, l, a, l') && a.Ingest? && AllFrom(a.batch, fromBlock)
    ensures Remnant(l0.events, l'.events, fromBlock) && OldRowsKept(l0, l', fromBlock)
    ensures Intact(l0.events, l'.events, fromBlock) <==>
            Intact(l0.events, l.events, fromBlock) && NoneTakesOver(l0.events, ModelsOf(l, a))
  {
    var models := BuildOf(l, a.batch, a.denied).value.models;
    ModelCursors(a.batch, Start(l.balances, a.batch, a.denied), a.batch.events, fromBlock);
    BulkUpsertIsFold(l.events, models);
    UpsertAllRemnant(l0.events, l.events, models, fromBlock);
  }

  /** No batch event among the first `n` steps takes over a row of the starting table. */
  ghost predicate NothingTakenOver(states: seq<Tables>, actions: seq<Action>, n: nat)
    requires n <= |actions| && n < |states|
  {
    forall i | 0 <= i < n :: NoneTakesOver(states[0].events, ModelsOf(states[i], actions[i]))
  }

  lemma StepRemnant(mode: Mode, l0: Tables, l: Tables, a: Action, l': Tables, fromBlock: int)
    requires Remnant(l0.events, l.events, fromBlock) && AllBelow(l0, fromBlock) && OldRowsKept(l0, l, fromBlock)
    requires Next(mode, l, a, l') && (a.Aborted? || (a.Ingest? && AllFrom(a.batch, fromBlock)))
    ensures Remnant(l0.events, l'.events, fromBlock) && OldRowsKept(l0, l', fromBlock)
    ensures Intact(l0.events, l'.events, fromBlock) <==>
            Intact(l0.events, l.events, fromBlock) && NoneTakesOver(l0.events, ModelsOf(l, a))
  {
    if a.Ingest? { IngestStepRemnant(mode, l0, l, a, l', fromBlock); }
  }

  lemma IngestRunStep(mode: Mode, states: seq<Tables>, actions: seq<Action>, fromBlock: int, i: nat)
    requires IngestRun(mode, states, actions, fromBlock) && i < |actions|
    ensures Next(mode, states[i], actions[i], states[i + 1])
    ensures actions[i].Aborted? || (actions[i].Ingest? && AllFrom(actions[i].batch, fromBlock))
  {
  }

  lemma TakenOverExtend(states: seq<Tables>, actions: seq<Action>, n: nat)
    requires n < |actions| && n + 1 < |states|
    ensures NothingTakenOver(states, actions, n + 1) <==>
            NothingTakenOver(states, actions, n) && NoneTakesOver(states[0].events, ModelsOf(states[n], actions[n]))
  {
  }

  lemma {:induction false} IngestRunRemnant(
    mode: Mode, states: seq<Tables>, actions: seq<Action>, fromBlock: int, n: nat)
    requires IngestRun(mode, states, actions, fromBlock) && n <= |actions|
    ensures Remnant(states[0].events, states[n].events, fromBlock)
    ensures OldRowsKept(states[0], states[n], fromBlock)
    ensures Intact(states[0].events, states[n].events, fromBlock) <==> NothingTakenOver(states, actions, n)
    decreases n
  {
    if n > 0 {
      IngestRunRemnant(mode, states, actions, fromBlock, n - 1);
      IngestRunStep(mode, states, actions, fromBlock, n - 1);
      StepRemnant(mode, states[0], states[n - 1], actions[n - 1], states[n], fromBlock);
      TakenOverExtend(states, actions, n - 1);
    }
  }

  lemma OldRowsRestored(l0: Tables, l: Tables, fromBlock: int, l': Tables)
    requires AllBelow(l0, fromBlock) && OldRowsKept(l0, l, fromBlock) && l' == Purged(l, fromBlock, l'.balances)
    ensures l'.transactions == l0.transactions && l'.blocks == l0.blocks
  {
    forall h ensures h in l'.transactions <==> h in l0.transactions {
    }
    forall n ensures n in l'.blocks <==> n in l0.blocks {
    }
  }

  /**
   * Ingesting any batches from a block on and then purging from that block: transactions, blocks and
   * the watermark always come back; the event table comes back if and only if no batch event took over
   * an older row; and then each amount is off by exactly the excess of the run and its purge.
   */
  lemma PurgeUndoesIngest(
    mode: Mode, states: seq<Tables>, actions: seq<Action>, fromBlock: int, order: seq<Uuid>, l': Tables)
    requires IngestRun(mode, states, actions, fromBlock)
    requires PurgeCommits(mode, states[|actions|], fromBlock, order, l')
    ensures l'.watermark == Some(if fromBlock > 0 then fromBlock - 1 else 0)
    ensures l'.transactions == states[0].transactions && l'.blocks == states[0].blocks
    ensures l'.events == states[0].events <==> NothingTakenOver(states, actions, |actions|)
    ensures l'.events == states[0].events ==> forall k ::
            Amount(l'.balances, k) == Amount(states[0].balances, k) + Excess(mode, states, actions, k)
              - Lost(states[|actions|].balances, Reversals(Rows(order, states[|actions|].events)), l'.balances, k)
  {
    var l := states[|actions|];
    IngestRunRemnant(mode, states, actions, fromBlock, |actions|);
    IntactIsBelow(states[0].events, l.events, fromBlock);
    OldRowsRestored(states[0], l, fromBlock, l');
    forall k ensures Drift(l', k) == Drift(states[0], k) + Excess(mode, states, actions, k)
                                     - Lost(l.balances, Reversals(Rows(order, l.events)), l'.balances, k)
    {
      RunLaw(mode, states, actions, k);
      ReversalLaw(l, From(l.events, fromBlock), order, l', k);
    }
  }

  ghost predicate FreshRun(states: seq<Tables>, actions: seq<Action>)
    requires |states| == |actions| + 1
  {
    forall i | 0 <= i < |actions| :: Fresh(states[i].events, ModelsOf(states[i], actions[i]))
  }

  lemma FreshStepKeepsDrift(states: seq<Tables>, actions: seq<Action>, fromBlock: int, i: nat, k: BalanceKey)
    requires IngestRun(PerRow, states, actions, fromBlock) && i < |actions| && FreshRun(states, actions)
    ensures Drift(states[i + 1], k) == Drift(states[i], k)
  {
    IngestRunRemnant(PerRow, states, actions, fromBlock, i);
    assert Clean(PerRow, states[i], actions[i], states[i + 1]);
    CleanKeepsDrift(PerRow, states[i], actions[i], states[i + 1], k);
  }

  lemma {:induction false} FreshRunKeepsDrift(
    states: seq<Tables>, actions: seq<Action>, fromBlock: int, n: nat, k: BalanceKey)
    requires IngestRun(PerRow, states, actions, fromBlock) && n <= |actions| && FreshRun(states, actions)
    ensures Drift(states[n], k) == Drift(states[0], k)
    decreases n
  {
    if n > 0 {
      FreshRunKeepsDrift(states, actions, fromBlock, n - 1, k);
      FreshStepKeepsDrift(states, actions, fromBlock, n - 1, k);
    }
  }

  /**
   * Purge undoes ingest, for every sequence of fresh batches, re-deliveries included: transactions,
   * blocks and the watermark come back; the event table comes back if and only if no batch event took
   * over a row that was there before; and then every amount comes back.
   */
  lemma PurgeRestores(states: seq<Tables>, actions: seq<Action>, fromBlock: int, order: seq<Uuid>, l': Tables)
    requires IngestRun(PerRow, states, actions, fromBlock) && FreshRun(states, actions)
    requires PurgeCommits(PerRow, states[|actions|], fromBlock, order, l')
    ensures l'.watermark == Some(if fromBlock > 0 then fromBlock - 1 else 0)
    ensures l'.transactions == states[0].transactions && l'.blocks == states[0].blocks
    ensures l'.events == states[0].events <==> NothingTakenOver(states, actions, |actions|)
    ensures l'.events == states[0].events ==> forall k :: Amount(l'.balances, k) == Amount(states[0].balances, k)
  {
    var l := states[|actions|];
    forall k ensures Drift(l', k) == Drift(states[0], k) {
      FreshRunKeepsDrift(states, actions, fromBlock, |actions|, k);
      ReversalLaw(l, From(l.events, fromBlock), order, l', k);
      AdjustedLoss(PerRow, l.balances, Reversals(Rows(order, l.events)), l'.balances, k);
    }
    PurgeUndoesIngest(PerRow, states, actions, fromBlock, order, l');
    if l'.events == states[0].events {
      forall k ensures Amount(l'.balances, k) == Amount(states[0].balances, k) {
        assert Drift(l', k) == Drift(states[0], k);
      }
    }
  }

  /** No event of the batch carries an id of the starting table. */
  ghost predicate ForeignIds(t0: EventTable, es: seq<BalanceEvent>) {
    forall e | e in es :: !Named(t0, e.eventId)
  }

  /** In particular everything comes back when no batch mentions an event id that was stored at the start. */
  lemma ForeignBatchesAreUndone(states: seq<Tables>, actions: seq<Action>, fromBlock: int, order: seq<Uuid>, l': Tables)
    requires IngestRun(PerRow, states, actions, fromBlock) && FreshRun(states, actions)
    requires forall i | 0 <= i < |actions| :: ForeignIds(states[0].events, ModelsOf(states[i], actions[i]))
    requires PurgeCommits(PerRow, states[|actions|], fromBlock, order, l')
    ensures l'.events == states[0].events
    ensures forall k :: Amount(l'.balances, k) == Amount(states[0].balances, k)
  {
    PurgeRestores(states, actions, fromBlock, order, l');
    forall i | 0 <= i < |actions| ensures NoneTakesOver(states[0].events, ModelsOf(states[i], actions[i])) {
      assert ForeignIds(states[0].events, ModelsOf(states[i], actions[i]));
    }
  }
}
