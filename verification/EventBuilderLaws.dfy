/** What buildEventModels guarantees about the models and aggregates of a batch. */
module EventBuilderLaws {
  import opened Sums
  import opened Ledger
  import opened BalanceStore
  import opened EventBuilder

  /** What the models of a batch, taken together, mean for the balance under `k`. */
  function ModelSum(ms: seq<BalanceEvent>, k: BalanceKey): int {
    if ms == [] then 0 else ModelSum(ms[..|ms| - 1], k) + ms[|ms| - 1].Weight(k)
  }

  /** The aggregated deltas of all wallets and organizations for one balance. */
  function KeyDeltas(deltas: map<AdjustKey, AdjustAccum>, k: BalanceKey): map<AdjustKey, int> {
    map ak | ak in deltas && ak.key == k :: deltas[ak].delta
  }

  ghost predicate Tracks(base: map<BalanceKey, Accum>, balances: map<BalanceKey, Accum>, ms: seq<BalanceEvent>) {
    forall k: BalanceKey | k.kind == Liquid ::
      Accumulated(balances, k).amount == Accumulated(base, k).amount + ModelSum(ms, k)
  }

  /** `m` starts from the prefetched amount plus the applied deltas before it. */
  ghost predicate Snapshot(base: map<BalanceKey, Accum>, earlier: seq<BalanceEvent>, m: BalanceEvent) {
    m.applied ==>
      && m.before == Some(Accumulated(base, LiquidKey(m)).amount + ModelSum(earlier, LiquidKey(m)))
      && m.after == Some(m.before.value + m.delta)
  }

  ghost predicate Snapshots(base: map<BalanceKey, Accum>, ms: seq<BalanceEvent>) {
    forall i | 0 <= i < |ms| :: Snapshot(base, ms[..i], ms[i])
  }

  /** For every balance, liquid or staked, the aggregates of all owners add up to what the models mean. */
  ghost predicate Aggregates(deltas: map<AdjustKey, AdjustAccum>, ms: seq<BalanceEvent>) {
    forall k :: Total(KeyDeltas(deltas, k)) == ModelSum(ms, k)
  }

  ghost predicate Consistent(base: map<BalanceKey, Accum>, s: Build) {
    && Tracks(base, s.balances, s.models)
    && Snapshots(base, s.models)
    && Aggregates(s.deltas, s.models)
  }

  lemma AddedTotal(deltas: map<AdjustKey, AdjustAccum>, ak: AdjustKey, delta: int, e: DecodedEvent, k: BalanceKey)
    ensures Total(KeyDeltas(Added(deltas, ak, delta, e), k))
         == Total(KeyDeltas(deltas, k)) + (if ak.key == k then delta else 0)
  {
    var after := Added(deltas, ak, delta, e);
    if ak.key == k {
      TotalUpdate(KeyDeltas(deltas, k), ak, after[ak].delta);
      assert KeyDeltas(after, k) == KeyDeltas(deltas, k)[ak := after[ak].delta];
    } else {
      assert KeyDeltas(after, k) == KeyDeltas(deltas, k);
    }
  }

  lemma AggregatedTotal(deltas: map<AdjustKey, AdjustAccum>, m: BalanceEvent, e: DecodedEvent, k: BalanceKey)
    requires m.applied && m.delta == e.delta
    ensures Total(KeyDeltas(Aggregated(deltas, m, e), k)) == Total(KeyDeltas(deltas, k)) + m.Weight(k)
  {
    var lk := AdjustKey(LiquidKey(m), OrEmpty(m.wallet), OrEmpty(m.org));
    var sk := AdjustKey(LiquidKey(m).(kind := Staked), OrEmpty(m.wallet), OrEmpty(m.org));
    var liquid := Added(deltas, lk, e.delta, e);
    AddedTotal(deltas, lk, e.delta, e, k);
    AddedTotal(liquid, sk, -e.delta, e, k);
    assert m.Weight(k) ==
      (if lk.key == k then e.delta else 0) + (if IsStaking(m.activity) && sk.key == k then -e.delta else 0);
    assert Aggregated(deltas, m, e) == if IsStaking(m.activity) then Added(liquid, sk, -e.delta, e) else liquid;
  }

  lemma ModelSumExtend(ms: seq<BalanceEvent>, m: BalanceEvent, k: BalanceKey)
    ensures ModelSum(ms + [m], k) == ModelSum(ms, k) + m.Weight(k)
  {
    assert (ms + [m])[..|ms|] == ms;
  }

  lemma SnapshotsExtend(base: map<BalanceKey, Accum>, ms: seq<BalanceEvent>, m: BalanceEvent)
    requires Snapshots(base, ms) && Snapshot(base, ms, m)
    ensures Snapshots(base, ms + [m])
  {
    var all := ms + [m];
    forall i | 0 <= i < |all| ensures Snapshot(base, all[..i], all[i]) {
      if i < |ms| {
        assert all[..i] == ms[..i] && all[i] == ms[i];
      } else {
        assert all[..i] == ms;
      }
    }
  }

  /** A step that records no model leaves every running amount and every aggregate alone. */
  lemma QuietStep(b: Batch, s: Build, e: DecodedEvent)
    requires Step(b, s, e).Some? && Step(b, s, e).value.models == s.models
    ensures
      var s' := Step(b, s, e).value;
      s'.deltas == s.deltas && forall k :: Accumulated(s'.balances, k) == Accumulated(s.balances, k)
  {
    assert forall m :: |s.models + [m]| == |s.models| + 1;
  }

  /** The step from `s` to `s'` records the model `m` and moves exactly that model's balance by its weight. */
  ghost predicate Records(s: Build, e: DecodedEvent, m: BalanceEvent, s': Build) {
    var before := Accumulated(s.balances, LiquidKey(m)).amount;
    && m.delta == e.delta && m.cursor == e.cursor && m.txHash == e.txHash
    && s'.models == s.models + [m]
    && s'.deltas == (if m.applied then Aggregated(s.deltas, m, e) else s.deltas)
    && (m.applied ==> m.before == Some(before) && m.after == Some(before + m.delta))
    && forall k: BalanceKey | k.kind == Liquid ::
         Accumulated(s'.balances, k).amount == Accumulated(s.balances, k).amount + m.Weight(k)
  }

  lemma ModelStep(b: Batch, s: Build, e: DecodedEvent) returns (m: BalanceEvent)
    requires Step(b, s, e).Some? && Step(b, s, e).value.models != s.models
    ensures Records(s, e, m, Step(b, s, e).value)
  {
    var k := BalanceKey(e.address, b.tokenIds[e.contract], Liquid);
    m := Model(b, e, b.tokenIds[e.contract], Accumulated(s.balances, k).amount);
  }

  lemma AggregatesExtend(
    deltas: map<AdjustKey, AdjustAccum>, ms: seq<BalanceEvent>, m: BalanceEvent, e: DecodedEvent)
    requires Aggregates(deltas, ms) && m.delta == e.delta
    ensures Aggregates(if m.applied then Aggregated(deltas, m, e) else deltas, ms + [m])
  {
    var deltas' := if m.applied then Aggregated(deltas, m, e) else deltas;
    forall k ensures Total(KeyDeltas(deltas', k)) == ModelSum(ms + [m], k) {
      ModelSumExtend(ms, m, k);
      if m.applied { AggregatedTotal(deltas, m, e, k); }
    }
  }

  lemma RecordConsistent(base: map<BalanceKey, Accum>, s: Build, e: DecodedEvent, m: BalanceEvent, s': Build)
    requires Consistent(base, s) && Records(s, e, m, s')
    ensures Consistent(base, s')
  {
    SnapshotsExtend(base, s.models, m);
    forall k ensures ModelSum(s'.models, k) == ModelSum(s.models, k) + m.Weight(k) { ModelSumExtend(s.models, m, k); }
    AggregatesExtend(s.deltas, s.models, m, e);
  }

  lemma StepConsistent(b: Batch, base: map<BalanceKey, Accum>, s: Build, e: DecodedEvent)
    requires Consistent(base, s) && Step(b, s, e).Some?
    ensures Consistent(base, Step(b, s, e).value)
  {
    var s' := Step(b, s, e).value;
    if s'.models == s.models {
      QuietStep(b, s, e);
    } else {
      var m := ModelStep(b, s, e);
      RecordConsistent(base, s, e, m, s');
    }
  }

  lemma {:induction false} BuildConsistent(b: Batch, base: map<BalanceKey, Accum>, s: Build, events: seq<DecodedEvent>)
    requires Consistent(base, s) && BuildAll(b, s, events).Some?
    ensures Consistent(base, BuildAll(b, s, events).value)
    decreases |events|
  {
    if events != [] {
      StepConsistent(b, base, s, events[0]);
      BuildConsistent(b, base, Step(b, s, events[0]).value, events[1..]);
    }
  }

  /** A finished build: running balances, recorded snapshots and aggregates all agree with the models. */
  lemma BuiltBatch(b: Batch, prefetched: map<BalanceKey, Accum>, denied: set<string>, r: Build)
    requires BuildAll(b, Build(prefetched, denied, [], map[]), b.events) == Some(r)
    ensures Consistent(prefetched, r)
  {
    var s0 := Build(prefetched, denied, [], map[]);
    forall k ensures Total(KeyDeltas(s0.deltas, k)) == 0 {
      assert KeyDeltas(s0.deltas, k) == map[];
    }
    assert Consistent(prefetched, s0);
    BuildConsistent(b, prefetched, s0, b.events);
  }

  lemma {:induction false} ModelSumSplit(ms: seq<BalanceEvent>, n: nat, k: BalanceKey)
    requires n <= |ms|
    ensures ModelSum(ms, k) == ModelSum(ms[..n], k) + ModelSum(ms[n..], k)
    decreases |ms|
  {
    if n == |ms| {
      assert ms[..n] == ms;
    } else {
      var init := ms[..|ms| - 1];
      ModelSumSplit(init, n, k);
      assert init[..n] == ms[..n] && ms[n..][..|ms[n..]| - 1] == init[n..];
    }
  }

  /** Models between two positions that do not touch `k` leave its sum alone. */
  lemma {:induction false} ModelSumAcross(ms: seq<BalanceEvent>, i: nat, j: nat, k: BalanceKey)
    requires i < j <= |ms|
    requires forall n | i < n < j :: ms[n].Weight(k) == 0
    ensures ModelSum(ms[..j], k) == ModelSum(ms[..i], k) + ms[i].Weight(k)
    decreases j
  {
    assert ms[..j] == ms[..j - 1] + [ms[j - 1]];
    ModelSumExtend(ms[..j - 1], ms[j - 1], k);
    if i < j - 1 { ModelSumAcross(ms, i, j - 1, k); }
  }

  /** Successive applied events of one balance chain: each starts where the previous one ended. */
  lemma SuccessiveEventsChain(
    b: Batch, prefetched: map<BalanceKey, Accum>, denied: set<string>, r: Build, i: nat, j: nat)
    requires BuildAll(b, Build(prefetched, denied, [], map[]), b.events) == Some(r)
    requires i < j < |r.models| && r.models[i].applied && r.models[j].applied
    requires LiquidKey(r.models[i]) == LiquidKey(r.models[j])
    requires forall n | i < n < j :: !r.models[n].applied || LiquidKey(r.models[n]) != LiquidKey(r.models[j])
    ensures r.models[j].before == r.models[i].after
  {
    BuiltBatch(b, prefetched, denied, r);
    assert Snapshot(prefetched, r.models[..i], r.models[i]) && Snapshot(prefetched, r.models[..j], r.models[j]);
    ModelSumAcross(r.models, i, j, LiquidKey(r.models[j]));
  }

  /** The last applied event of a balance ends at the prefetched amount plus everything aggregated for it. */
  lemma LastEventMatchesAggregate(b: Batch, prefetched: map<BalanceKey, Accum>, denied: set<string>, r: Build, i: nat)
    requires BuildAll(b, Build(prefetched, denied, [], map[]), b.events) == Some(r)
    requires i < |r.models| && r.models[i].applied
    requires forall n | i < n < |r.models| :: !r.models[n].applied || LiquidKey(r.models[n]) != LiquidKey(r.models[i])
    ensures
      var k := LiquidKey(r.models[i]);
      r.models[i].after == Some(Accumulated(prefetched, k).amount + Total(KeyDeltas(r.deltas, k)))
  {
    BuiltBatch(b, prefetched, denied, r);
    assert Snapshot(prefetched, r.models[..i], r.models[i]);
    ModelSumAcross(r.models, i, |r.models|, LiquidKey(r.models[i]));
    assert r.models[..|r.models|] == r.models;
  }

  function Without(events: seq<DecodedEvent>, contract: string): seq<DecodedEvent> {
    if events == [] then []
    else (if events[0].contract == contract then [] else [events[0]]) + Without(events[1..], contract)
  }

  /** Once a contract is denied, dropping all its later events changes nothing in the batch. */
  lemma {:induction false} DeniedContributesNothing(b: Batch, s: Build, events: seq<DecodedEvent>, contract: string)
    requires contract in s.denied
    ensures BuildAll(b, s, events) == BuildAll(b, s, Without(events, contract))
    decreases |events|
  {
    if events != [] {
      var e, rest := events[0], events[1..];
      if e.contract == contract {
        assert Without(events, contract) == Without(rest, contract);
        DeniedContributesNothing(b, s, rest, contract);
      } else {
        assert ([e] + Without(rest, contract))[1..] == Without(rest, contract);
        match Step(b, s, e)
        case None =>
        case Some(s') => DeniedContributesNothing(b, s', rest, contract);
      }
    }
  }

  /** An event that trips scam detection is itself dropped and denies its contract for the rest of the batch. */
  lemma AutoDenyCutsOffContract(b: Batch, s: Build, e: DecodedEvent, rest: seq<DecodedEvent>)
    requires e.contract in b.tokenIds && e.txHash in b.txIds && e.contract !in s.denied
    requires e.tokenType != Native && b.chain != BTC
    requires
      var k := BalanceKey(e.address, b.tokenIds[e.contract], Liquid);
      e.scamHint || (e.delta < 0 && !Accumulated(s.balances, k).known)
    ensures Step(b, s, e).Some?
    ensures
      var s' := Step(b, s, e).value;
      && s'.models == s.models && s'.deltas == s.deltas
      && BuildAll(b, s, [e] + rest) == BuildAll(b, s', Without(rest, e.contract))
  {
    var s' := Step(b, s, e).value;
    assert ([e] + rest)[1..] == rest;
    DeniedContributesNothing(b, s', rest, e.contract);
  }

  // ----- The adjustment list -----

  function ItemOf(ak: AdjustKey, acc: AdjustAccum): AdjustItem {
    AdjustItem(ak.key, NonEmpty(ak.wallet), NonEmpty(ak.org), acc.delta, acc.cursor, acc.txHash)
  }

  /** The adjust items in the order the map iteration produced. */
  function Items(order: seq<AdjustKey>, deltas: map<AdjustKey, AdjustAccum>): seq<AdjustItem>
    requires forall ak | ak in order :: ak in deltas
  {
    if order == [] then []
    else
      var n := |order| - 1;
      assert order[n] in order && forall ak | ak in order[..n] :: ak in order;
      Items(order[..n], deltas) + [ItemOf(order[n], deltas[order[n]])]
  }

  lemma {:induction false} ItemsTotal(order: seq<AdjustKey>, deltas: map<AdjustKey, AdjustAccum>, k: BalanceKey)
    requires Enumerates(order, deltas.Keys)
    ensures SumFor(Items(order, deltas), k) == Total(KeyDeltas(deltas, k))
    decreases |order|
  {
    if order == [] {
      assert deltas == map[] by { assert forall ak | ak in deltas.Keys :: ak in order; }
      assert KeyDeltas(deltas, k) == map[];
    } else {
      var n := |order| - 1;
      var last := order[n];
      EnumerationPrefix(order, deltas.Keys);
      var smaller := deltas - {last};
      assert smaller.Keys == deltas.Keys - {last};
      ItemsTotal(order[..n], smaller, k);
      ItemsFrame(order[..n], deltas, smaller);
      SplitSums(Items(order[..n], deltas), [ItemOf(last, deltas[last])], k);
      KeyDeltasRemove(deltas, last, k);
    }
  }

  lemma KeyDeltasRemove(deltas: map<AdjustKey, AdjustAccum>, ak: AdjustKey, k: BalanceKey)
    requires ak in deltas
    ensures Total(KeyDeltas(deltas, k)) ==
      Total(KeyDeltas(deltas - {ak}, k)) + (if ak.key == k then deltas[ak].delta else 0)
  {
    if ak.key == k {
      TotalRemove(KeyDeltas(deltas, k), ak);
      assert KeyDeltas(deltas - {ak}, k) == KeyDeltas(deltas, k) - {ak};
    } else {
      assert KeyDeltas(deltas - {ak}, k) == KeyDeltas(deltas, k);
    }
  }

  lemma {:induction false} ItemsFrame(
    order: seq<AdjustKey>, a: map<AdjustKey, AdjustAccum>, b: map<AdjustKey, AdjustAccum>)
    requires forall ak | ak in order :: ak in a && ak in b && a[ak] == b[ak]
    ensures Items(order, a) == Items(order, b)
    decreases |order|
  {
    if order != [] {
      var n := |order| - 1;
      assert order[n] in order && forall ak | ak in order[..n] :: ak in order;
      ItemsFrame(order[..n], a, b);
    }
  }
}
