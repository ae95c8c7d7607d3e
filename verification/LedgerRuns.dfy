/** The ledger over whole runs of ingest, promotion, purge and rollback transactions. */
module LedgerRuns {
  import opened Ledger
  import opened EventStore
  import opened BalanceStore
  import opened EventBuilder
  import opened EventBuilderLaws
  import opened LedgerSteps

  ghost predicate Run(mode: Mode, states: seq<Tables>, actions: seq<Action>) {
    && |states| == |actions| + 1
    && forall i | 0 <= i < |actions| :: Next(mode, states[i], actions[i], states[i + 1])
  }

  /** The phantom deltas of a run minus what its balance statements lost. */
  ghost function Excess(mode: Mode, states: seq<Tables>, actions: seq<Action>, k: BalanceKey): int
    requires Run(mode, states, actions)
    decreases |actions|
  {
    if actions == [] then 0
    else
      var n := |actions| - 1;
      assert Next(mode, states[n], actions[n], states[n + 1]);
      Excess(mode, states[..n + 1], actions[..n], k)
      + PhantomIn(mode, states[n], actions[n], states[n + 1], k)
      - Lost(states[n].balances, Adjustments(mode, states[n], actions[n], states[n + 1]), states[n + 1].balances, k)
  }

  /** The conservation law over every run. */
  lemma {:induction false} RunLaw(mode: Mode, states: seq<Tables>, actions: seq<Action>, k: BalanceKey)
    requires Run(mode, states, actions)
    ensures Drift(states[|actions|], k) == Drift(states[0], k) + Excess(mode, states, actions, k)
    decreases |actions|
  {
    if actions != [] {
      var n := |actions| - 1;
      assert Next(mode, states[n], actions[n], states[n + 1]);
      RunLaw(mode, states[..n + 1], actions[..n], k);
      StepLaw(mode, states[n], actions[n], states[n + 1], k);
    }
  }

  // ----- When nothing goes astray -----

  ghost predicate SameEffect(a: BalanceEvent, b: BalanceEvent) {
    forall k :: a.Effect(k) == b.Effect(k)
  }

  /** An applied event may only meet a row that is still unapplied, means the same and yields to it. */
  ghost predicate FreshEvent(t: EventTable, e: BalanceEvent) {
    e.applied && Named(t, e.eventId) ==>
      var row := t[ConflictRow(t, e)];
      !row.applied && SameEffect(row, e) && Wins(row, e)
  }

  ghost predicate Fresh(t: EventTable, es: seq<BalanceEvent>) {
    DistinctIds(es) && forall e | e in es :: FreshEvent(t, e)
  }

  ghost function ModelsOf(l: Tables, a: Action): seq<BalanceEvent> {
    match a
    case Ingest(batch, denied, _) =>
      var r := BuildOf(l, batch, denied);
      if r.Some? then r.value.models else []
    case _ => []
  }

  /** A transaction with fresh events whose balance statement cannot lose an item. */
  ghost predicate Clean(mode: Mode, l: Tables, a: Action, l': Tables) {
    && Next(mode, l, a, l')
    && Fresh(l.events, ModelsOf(l, a))
    && (mode == PerRow || DistinctKeys(Adjustments(mode, l, a, l')))
  }

  /** Upserting an event leaves the rows of all other ids alone. */
  lemma OtherIdUntouched(t: EventTable, e: BalanceEvent, x: BalanceEvent)
    requires Unique(t) && Upsert(t, e).Some? && (x.eventId == e.eventId ==> x.eventId == "")
    ensures
      var t' := Upsert(t, e).value;
      && (Named(t', x.eventId) <==> Named(t, x.eventId))
      && (Named(t, x.eventId) ==> t'[ConflictRow(t', x)] == t[ConflictRow(t, x)])
  {
    var t' := Upsert(t, e).value;
    if Named(t, x.eventId) {
      var i := ConflictRow(t, x);
      assert i in t' && t'[i].eventId == x.eventId;
      assert ConflictRow(t', x) == i;
    }
    if Named(t', x.eventId) {
      var i := ConflictRow(t', x);
      assert i in t && t[i].eventId == x.eventId;
    }
  }

  lemma {:induction false} FreshLeavesNoPhantom(t: EventTable, es: seq<BalanceEvent>, k: BalanceKey)
    requires Unique(t) && Fresh(t, es) && UpsertAll(t, es).Some?
    ensures Phantom(t, es, k) == 0
    decreases |es|
  {
    if es != [] {
      var e, rest := es[0], es[1..];
      var t' := Upsert(t, e).value;
      assert e in es;
      assert PhantomOf(t, e, k) == 0;
      assert DistinctIds(rest) by { assert forall i | 0 <= i < |rest| :: rest[i] == es[i + 1]; }
      forall x | x in rest ensures FreshEvent(t', x) {
        var j :| 0 <= j < |rest| && rest[j] == x;
        assert es[j + 1] == x;
        OtherIdUntouched(t, e, x);
        assert FreshEvent(t, x);
      }
      FreshLeavesNoPhantom(t', rest, k);
    }
  }

  lemma NextKeepsUnique(mode: Mode, l: Tables, a: Action, l': Tables)
    requires Next(mode, l, a, l') && Unique(l.events)
    ensures Unique(l'.events)
  {
    match a
    case Ingest(batch, denied, _) => BulkUpsertIsFold(l.events, BuildOf(l, batch, denied).value.models);
    case _ =>
  }

  lemma CleanKeepsDrift(mode: Mode, l: Tables, a: Action, l': Tables, k: BalanceKey)
    requires Clean(mode, l, a, l') && Unique(l.events)
    ensures Drift(l', k) == Drift(l, k)
  {
    StepLaw(mode, l, a, l', k);
    if a.Ingest? {
      var models := BuildOf(l, a.batch, a.denied).value.models;
      BulkUpsertIsFold(l.events, models);
      FreshLeavesNoPhantom(l.events, models, k);
    }
    if a.Aborted? {
      assert Adjustments(mode, l, a, l') == [];
    } else {
      AdjustedLoss(mode, l.balances, Adjustments(mode, l, a, l'), l'.balances, k);
    }
  }

  /**
   * The ledger law: along every run whose ingests are fresh, in every state, each liquid balance is
   * the sum of the applied deltas stored for it and each staked balance is minus that sum over
   * staking events. Adjusting item by item needs no more; the bulk statement needs distinct keys.
   */
  lemma {:induction false} LedgerLaw(mode: Mode, states: seq<Tables>, actions: seq<Action>, n: nat)
    requires Run(mode, states, actions) && n <= |actions|
    requires Unique(states[0].events) && Balanced(states[0])
    requires forall i | 0 <= i < |actions| :: Clean(mode, states[i], actions[i], states[i + 1])
    ensures Unique(states[n].events) && Balanced(states[n])
    decreases n
  {
    if n > 0 {
      LedgerLaw(mode, states, actions, n - 1);
      assert Clean(mode, states[n - 1], actions[n - 1], states[n - 1 + 1]);
      NextKeepsUnique(mode, states[n - 1], actions[n - 1], states[n]);
      forall k ensures Drift(states[n], k) == 0 {
        CleanKeepsDrift(mode, states[n - 1], actions[n - 1], states[n], k);
      }
    }
  }

  ghost predicate NoPhantoms(t: EventTable, es: seq<BalanceEvent>)
    requires UpsertAll(t, es).Some?
  {
    forall k :: Phantom(t, es, k) == 0
  }

  /**
   * A batch of any size keeps a balanced ledger balanced exactly when its models leave no phantom delta
   * in the table.
   */
  lemma BatchIsExact(l: Tables, b: Batch, denied: set<string>, keys: seq<AdjustKey>, l': Tables)
    requires IngestCommits(PerRow, l, b, denied, keys, l') && Balanced(l)
    ensures UpsertAll(l.events, BuildOf(l, b, denied).value.models).Some?
    ensures Balanced(l') <==> NoPhantoms(l.events, BuildOf(l, b, denied).value.models)
  {
    var models := BuildOf(l, b, denied).value.models;
    BulkUpsertIsFold(l.events, models);
    forall k ensures Drift(l', k) == Phantom(l.events, models, k) {
      IngestLaw(PerRow, l, b, denied, keys, l', k);
      AdjustedLoss(PerRow, l.balances, Items(keys, BuildOf(l, b, denied).value.deltas), l'.balances, k);
      assert Drift(l, k) == 0;
    }
    if Balanced(l') {
      forall k ensures Phantom(l.events, models, k) == 0 { assert Drift(l', k) == 0; }
    } else {
      var k :| Drift(l', k) != 0;
      assert Phantom(l.events, models, k) != 0;
    }
  }

  /** What the events would each leave unrecorded, read off the table as it is before any of them. */
  ghost function PhantomSum(t: EventTable, es: seq<BalanceEvent>, k: BalanceKey): int {
    if es == [] then 0 else PhantomOf(t, es[0], k) + PhantomSum(t, es[1..], k)
  }

  lemma OtherIdSamePhantom(t: EventTable, e: BalanceEvent, x: BalanceEvent, k: BalanceKey)
    requires Unique(t) && Upsert(t, e).Some? && (x.eventId == e.eventId ==> x.eventId == "")
    ensures PhantomOf(Upsert(t, e).value, x, k) == PhantomOf(t, x, k)
  {
    OtherIdUntouched(t, e, x);
  }

  lemma {:induction false} PhantomSumKept(t: EventTable, e: BalanceEvent, es: seq<BalanceEvent>, k: BalanceKey)
    requires Unique(t) && Upsert(t, e).Some?
    requires forall x | x in es :: x.eventId == e.eventId ==> x.eventId == ""
    ensures PhantomSum(Upsert(t, e).value, es, k) == PhantomSum(t, es, k)
    decreases |es|
  {
    if es != [] {
      assert es[0] in es;
      OtherIdSamePhantom(t, e, es[0], k);
      PhantomSumKept(t, e, es[1..], k);
    }
  }

  lemma DistinctTail(es: seq<BalanceEvent>)
    requires DistinctIds(es) && es != []
    ensures DistinctIds(es[1..])
    ensures forall x | x in es[1..] :: x.eventId == es[0].eventId ==> x.eventId == ""
  {
    assert forall i | 0 <= i < |es[1..]| :: es[1..][i] == es[i + 1];
  }

  /** With distinct ids the events do not meet each other, only the rows that were there. */
  lemma {:induction false} PhantomIsSum(t: EventTable, es: seq<BalanceEvent>, k: BalanceKey)
    requires Unique(t) && DistinctIds(es) && UpsertAll(t, es).Some?
    ensures Phantom(t, es, k) == PhantomSum(t, es, k)
    decreases |es|
  {
    if es != [] {
      DistinctTail(es);
      PhantomIsSum(Upsert(t, es[0]).value, es[1..], k);
      PhantomSumKept(t, es[0], es[1..], k);
    }
  }

  ghost predicate AddsUpToNothing(t: EventTable, es: seq<BalanceEvent>) {
    forall k :: PhantomSum(t, es, k) == 0
  }

  lemma PhantomsAddUp(t: EventTable, es: seq<BalanceEvent>)
    requires Unique(t) && DistinctIds(es) && UpsertAll(t, es).Some?
    ensures NoPhantoms(t, es) <==> AddsUpToNothing(t, es)
  {
    if NoPhantoms(t, es) {
      forall k ensures PhantomSum(t, es, k) == 0 { PhantomIsSum(t, es, k); }
    }
    if AddsUpToNothing(t, es) {
      forall k ensures Phantom(t, es, k) == 0 { PhantomIsSum(t, es, k); }
    }
  }

  /**
   * A batch of distinct ids keeps a balanced ledger balanced exactly when, for every balance, what its
   * models would each leave unrecorded in the table as it is adds up to nothing.
   */
  lemma DistinctBatchIsExact(l: Tables, b: Batch, denied: set<string>, keys: seq<AdjustKey>, l': Tables)
    requires IngestCommits(PerRow, l, b, denied, keys, l') && Balanced(l) && Unique(l.events)
    requires DistinctIds(BuildOf(l, b, denied).value.models)
    ensures Balanced(l') <==> AddsUpToNothing(l.events, BuildOf(l, b, denied).value.models)
  {
    var models := BuildOf(l, b, denied).value.models;
    BatchIsExact(l, b, denied, keys, l');
    PhantomsAddUp(l.events, models);
  }

  /** Freshness is exactly what a batch of one applied event needs to keep a balanced ledger balanced. */
  lemma FreshnessIsExact(l: Tables, b: Batch, denied: set<string>, keys: seq<AdjustKey>, l': Tables, e: BalanceEvent)
    requires IngestCommits(PerRow, l, b, denied, keys, l')
    requires BuildOf(l, b, denied).value.models == [e] && e.applied && e.delta != 0
    requires Balanced(l)
    ensures Balanced(l') <==> FreshEvent(l.events, e)
  {
    BulkUpsertIsFold(l.events, [e]);
    forall k ensures Drift(l', k) == PhantomOf(l.events, e, k) {
      IngestLaw(PerRow, l, b, denied, keys, l', k);
      AdjustedLoss(PerRow, l.balances, Items(keys, BuildOf(l, b, denied).value.deltas), l'.balances, k);
      assert [e][1..] == [];
    }
    var k := LiquidKey(e);
    assert e.Effect(k) == e.delta;
    if Balanced(l') && Named(l.events, e.eventId) {
      assert PhantomOf(l.events, e, k) == Drift(l', k) == 0;
      var row := l.events[ConflictRow(l.events, e)];
      forall k ensures row.Effect(k) == e.Effect(k) {
        assert PhantomOf(l.events, e, k) == Drift(l', k) == 0;
      }
    }
  }
}
