/** Which events of a batch become models and which contracts are denied, said of the events alone. */
module BatchTrace {
  import opened Sums
  import opened Ledger
  import opened EventBuilder
  import opened Paging
  import KeepBest

  // ----- Conditions on the events of the batch -----

  /** Token and transaction of the event are known. */
  predicate Known(b: Batch, e: DecodedEvent) {
    e.contract in b.tokenIds && e.txHash in b.txIds
  }

  /** The event is about the balance under `k`. */
  predicate Touches(b: Batch, e: DecodedEvent, k: BalanceKey) {
    e.contract in b.tokenIds && k == BalanceKey(e.address, b.tokenIds[e.contract], Liquid)
  }

  /** On Solana any state will do; elsewhere an event moves balances from the confirmed state on, or without a state. */
  predicate Strong(chain: Chain, e: DecodedEvent) {
    && (|| chain == Solana || e.finality == Unset || e.finality == Confirmed || e.finality == Accepted
        || e.finality == Safe || e.finality == Finalized)
    && (e.tokenType == Native || e.delta != 0)
  }

  /** Among the chosen events before `n`, one moves the balance under `k`. */
  ghost predicate MovedBefore(b: Batch, at: seq<int>, n: int, k: BalanceKey) {
    exists j | j in at :: 0 <= j < n && j < |b.events| && Touches(b, b.events[j], k) && Strong(b.chain, b.events[j])
  }

  /** The balance existed before the batch, or an earlier chosen event moved it. */
  ghost predicate Exists(b: Batch, prefetched: map<BalanceKey, Accum>, at: seq<int>, n: int, k: BalanceKey) {
    (k in prefetched && prefetched[k].known) || MovedBefore(b, at, n, k)
  }

  /** Every earlier known event of the contract is among the chosen ones. */
  ghost predicate Undisputed(b: Batch, at: seq<int>, n: int, contract: string) {
    forall j | 0 <= j < n && j < |b.events| && Known(b, b.events[j]) && b.events[j].contract == contract :: j in at
  }

  /** Nothing about the event looks like a scam. */
  ghost predicate Plausible(b: Batch, prefetched: map<BalanceKey, Accum>, at: seq<int>, i: int)
    requires 0 <= i < |b.events| && Known(b, b.events[i])
  {
    var e := b.events[i];
    || e.tokenType == Native || b.chain == BTC
    || (!e.scamHint
        && (e.delta >= 0 || Exists(b, prefetched, at, i, BalanceKey(e.address, b.tokenIds[e.contract], Liquid))))
  }

  /** Event `i` belongs among the chosen ones. */
  ghost predicate Chosen(
    b: Batch, prefetched: map<BalanceKey, Accum>, denied: set<string>, at: seq<int>, i: int)
    requires 0 <= i < |b.events|
  {
    && Known(b, b.events[i])
    && b.events[i].contract !in denied && Undisputed(b, at, i, b.events[i].contract)
    && Plausible(b, prefetched, at, i)
  }

  ghost predicate Settled(b: Batch, prefetched: map<BalanceKey, Accum>, denied: set<string>, at: seq<int>, i: int)
    requires 0 <= i < |b.events|
  {
    i in at <==> Chosen(b, prefetched, denied, at, i)
  }

  /** `at` lists, in order, exactly the events among the first `n` that belong there. */
  ghost predicate Trace(b: Batch, prefetched: map<BalanceKey, Accum>, denied: set<string>, n: nat, at: seq<int>)
    requires n <= |b.events|
  {
    && Ascending(at) && (forall m | 0 <= m < |at| :: 0 <= at[m] < n)
    && forall i | 0 <= i < n :: Settled(b, prefetched, denied, at, i)
  }

  /** The contracts of the known events among the first `n` that are not chosen. */
  function Dropped(b: Batch, n: nat, at: seq<int>): set<string>
    requires n <= |b.events|
  {
    set i | 0 <= i < n && Known(b, b.events[i]) && i !in at :: b.events[i].contract
  }

  /** What the chosen events add to the balance under `k`. */
  function Moved(b: Batch, at: seq<int>, k: BalanceKey): int
    requires forall m | 0 <= m < |at| :: 0 <= at[m] < |b.events|
  {
    if at == [] then 0
    else
      var e := b.events[at[|at| - 1]];
      Moved(b, at[..|at| - 1], k) + if Touches(b, e, k) && Strong(b.chain, e) then e.delta else 0
  }

  /** Who an event is recorded for: its own address if watched, else its counterparty, else the batch's owner. */
  predicate Attributed(b: Batch, e: DecodedEvent, m: BalanceEvent) {
    && (!b.blockScan ==> m.watched == b.address && m.wallet == b.owner.wallet && m.org == b.owner.org)
    && (b.blockScan && e.address != "" && e.address in b.owners ==>
          && m.watched == e.address
          && m.wallet == b.owners[e.address].wallet && m.org == b.owners[e.address].org)
    && (b.blockScan && e.address !in b.owners && e.counterparty != "" && e.counterparty in b.owners ==>
          && m.watched == e.counterparty
          && m.wallet == b.owners[e.counterparty].wallet && m.org == b.owners[e.counterparty].org)
    && (b.blockScan && e.address !in b.owners && e.counterparty !in b.owners ==>
          m.watched == e.address && m.wallet == b.owner.wallet && m.org == b.owner.org)
  }

  /** `m` is the row for `e`. */
  predicate RowFor(b: Batch, e: DecodedEvent, m: BalanceEvent) {
    && m.id == e.id && m.eventId == e.eventId && m.txHash == e.txHash && m.activity == e.activity
    && e.contract in b.tokenIds && m.token == b.tokenIds[e.contract] && m.address == e.address
    && m.delta == e.delta && m.cursor == e.cursor && m.finality == e.finality
    && m.applied == Strong(b.chain, e) && Attributed(b, e, m)
  }

  // ----- The build follows the trace -----

  ghost predicate RowsFor(b: Batch, at: seq<int>, ms: seq<BalanceEvent>) {
    && |ms| == |at|
    && forall m | 0 <= m < |at| :: 0 <= at[m] < |b.events| && RowFor(b, b.events[at[m]], ms[m])
  }

  ghost predicate BalancesFollow(
    b: Batch, prefetched: map<BalanceKey, Accum>, n: nat, at: seq<int>, balances: map<BalanceKey, Accum>)
    requires n <= |b.events| && forall m | 0 <= m < |at| :: 0 <= at[m] < |b.events|
  {
    forall k: BalanceKey | k.kind == Liquid ::
      && (Accumulated(balances, k).known <==> Exists(b, prefetched, at, n, k))
      && Accumulated(balances, k).amount == Accumulated(prefetched, k).amount + Moved(b, at, k)
  }

  ghost predicate Follows(
    b: Batch, prefetched: map<BalanceKey, Accum>, denied: set<string>, n: nat, at: seq<int>, s: Build)
    requires n <= |b.events|
  {
    && Trace(b, prefetched, denied, n, at)
    && RowsFor(b, at, s.models)
    && s.denied == denied + Dropped(b, n, at)
    && BalancesFollow(b, prefetched, n, at, s.balances)
  }

  lemma ModelIsRow(b: Batch, e: DecodedEvent, before: int)
    requires e.contract in b.tokenIds
    ensures RowFor(b, e, Model(b, e, b.tokenIds[e.contract], before))
  {
  }

  /** Appending the next index changes nothing for the events before it. */
  lemma ChosenFrame(b: Batch, prefetched: map<BalanceKey, Accum>, denied: set<string>, at: seq<int>, n: int, i: int)
    requires 0 <= i <= n && i < |b.events|
    ensures Chosen(b, prefetched, denied, at + [n], i) <==> Chosen(b, prefetched, denied, at, i)
  {
    assert forall j | 0 <= j < i :: j in at + [n] <==> j in at;
  }

  lemma TraceSkips(b: Batch, prefetched: map<BalanceKey, Accum>, denied: set<string>, n: nat, at: seq<int>)
    requires n < |b.events| && Trace(b, prefetched, denied, n, at) && !Chosen(b, prefetched, denied, at, n)
    ensures Trace(b, prefetched, denied, n + 1, at)
  {
    NotYet(at, n);
    assert Settled(b, prefetched, denied, at, n);
  }

  lemma TraceTakes(b: Batch, prefetched: map<BalanceKey, Accum>, denied: set<string>, n: nat, at: seq<int>)
    requires n < |b.events| && Trace(b, prefetched, denied, n, at) && Chosen(b, prefetched, denied, at, n)
    ensures Trace(b, prefetched, denied, n + 1, at + [n])
  {
    forall i | 0 <= i < n + 1 ensures Settled(b, prefetched, denied, at + [n], i) {
      assert i < n ==> Settled(b, prefetched, denied, at, i);
      ChosenFrame(b, prefetched, denied, at, n, i);
      assert i in at + [n] <==> i in at || i == n;
    }
  }

  lemma DroppedExtend(b: Batch, n: nat, at: seq<int>)
    requires n < |b.events| && n !in at
    ensures Dropped(b, n + 1, at) ==
            Dropped(b, n, at) + if Known(b, b.events[n]) then {b.events[n].contract} else {}
    ensures Dropped(b, n + 1, at + [n]) == Dropped(b, n, at)
  {
    assert forall i | 0 <= i < n :: i in at + [n] <==> i in at;
  }

  lemma NotYet(at: seq<int>, n: nat)
    requires forall m | 0 <= m < |at| :: 0 <= at[m] < n
    ensures n !in at
  {
  }

  /** A contract is denied exactly if it was before, or one of its known events was dropped. */
  lemma DeniedMeans(b: Batch, denied: set<string>, n: nat, at: seq<int>, contract: string)
    requires n <= |b.events|
    ensures contract in denied + Dropped(b, n, at) <==> contract in denied || !Undisputed(b, at, n, contract)
  {
  }

  lemma ExistsExtend(b: Batch, prefetched: map<BalanceKey, Accum>, at: seq<int>, n: nat, k: BalanceKey)
    requires n < |b.events| && n !in at
    ensures Exists(b, prefetched, at, n + 1, k) <==> Exists(b, prefetched, at, n, k)
    ensures Exists(b, prefetched, at + [n], n + 1, k) <==>
            Exists(b, prefetched, at, n, k) || (Touches(b, b.events[n], k) && Strong(b.chain, b.events[n]))
  {
    assert forall j :: j in at + [n] <==> j in at || j == n;
    assert n in at + [n];
  }

  lemma MovedExtend(b: Batch, at: seq<int>, n: nat, k: BalanceKey)
    requires n < |b.events| && forall m | 0 <= m < |at| :: 0 <= at[m] < |b.events|
    ensures Moved(b, at + [n], k) ==
            Moved(b, at, k)
            + if Touches(b, b.events[n], k) && Strong(b.chain, b.events[n]) then b.events[n].delta else 0
  {
    assert (at + [n])[..|at|] == at;
  }

  /** Not skipped means known and not denied; tripping the scam check means not plausible. */
  lemma StepDecides(
    b: Batch, prefetched: map<BalanceKey, Accum>, denied: set<string>, n: nat, at: seq<int>, s: Build)
    requires n < |b.events| && Follows(b, prefetched, denied, n, at, s)
    ensures
      var e := b.events[n];
      Chosen(b, prefetched, denied, at, n) <==>
      && !Skipped(b, s, e)
      && !ScamSignal(b.chain, e, Accumulated(s.balances, BalanceKey(e.address, b.tokenIds[e.contract], Liquid)).known)
  {
    DeniedMeans(b, denied, n, at, b.events[n].contract);
  }

  /** A step that drops its event denies its contract, if the event is known, and changes no balance. */
  lemma DroppedStep(b: Batch, s: Build, e: DecodedEvent)
    requires
      || Skipped(b, s, e)
      || ScamSignal(b.chain, e, Accumulated(s.balances, BalanceKey(e.address, b.tokenIds[e.contract], Liquid)).known)
    ensures Step(b, s, e).Some?
    ensures
      var s' := Step(b, s, e).value;
      && s'.models == s.models && s'.denied == s.denied + (if Known(b, e) then {e.contract} else {})
      && forall k :: Accumulated(s'.balances, k) == Accumulated(s.balances, k)
  {
  }

  lemma DropFollows(
    b: Batch, prefetched: map<BalanceKey, Accum>, denied: set<string>, n: nat, at: seq<int>, s: Build)
    requires n < |b.events| && Follows(b, prefetched, denied, n, at, s) && !Chosen(b, prefetched, denied, at, n)
    ensures Step(b, s, b.events[n]).Some?
    ensures Follows(b, prefetched, denied, n + 1, at, Step(b, s, b.events[n]).value)
  {
    var s' := Step(b, s, b.events[n]).value;
    StepDecides(b, prefetched, denied, n, at, s);
    DroppedStep(b, s, b.events[n]);
    TraceSkips(b, prefetched, denied, n, at);
    NotYet(at, n);
    DroppedExtend(b, n, at);
    forall k: BalanceKey | k.kind == Liquid
      ensures Accumulated(s'.balances, k) == Accumulated(s.balances, k)
      ensures Exists(b, prefetched, at, n + 1, k) <==> Exists(b, prefetched, at, n, k)
    {
      ExistsExtend(b, prefetched, at, n, k);
    }
  }

  lemma TakeBalances(b: Batch, prefetched: map<BalanceKey, Accum>, n: nat, at: seq<int>,
                     balances: map<BalanceKey, Accum>, balances': map<BalanceKey, Accum>)
    requires n < |b.events| && (forall m | 0 <= m < |at| :: 0 <= at[m] < n)
    requires BalancesFollow(b, prefetched, n, at, balances) && b.events[n].contract in b.tokenIds
    requires
      var e := b.events[n];
      var k := BalanceKey(e.address, b.tokenIds[e.contract], Liquid);
      var acc := Accumulated(balances, k);
      balances' == balances[k := if Strong(b.chain, e) then Accum(acc.amount + e.delta, true) else acc]
    ensures BalancesFollow(b, prefetched, n + 1, at + [n], balances')
  {
    NotYet(at, n);
    forall k: BalanceKey | k.kind == Liquid
      ensures Accumulated(balances', k).known <==> Exists(b, prefetched, at + [n], n + 1, k)
      ensures Accumulated(balances', k).amount == Accumulated(prefetched, k).amount + Moved(b, at + [n], k)
    {
      ExistsExtend(b, prefetched, at, n, k);
      MovedExtend(b, at, n, k);
    }
  }

  lemma RowsExtend(b: Batch, at: seq<int>, ms: seq<BalanceEvent>, n: nat, m: BalanceEvent)
    requires n < |b.events| && RowsFor(b, at, ms) && RowFor(b, b.events[n], m)
    ensures RowsFor(b, at + [n], ms + [m])
  {
  }

  /** The step from `s` to `s'` keeps event `n` as the row `m`. */
  ghost predicate Keeps(b: Batch, n: nat, s: Build, m: BalanceEvent, s': Build)
    requires n < |b.events|
  {
    var e := b.events[n];
    && e.contract in b.tokenIds && RowFor(b, e, m)
    && s'.models == s.models + [m] && s'.denied == s.denied
    && var k := BalanceKey(e.address, b.tokenIds[e.contract], Liquid);
       var acc := Accumulated(s.balances, k);
       s'.balances == s.balances[k := if Strong(b.chain, e) then Accum(acc.amount + e.delta, true) else acc]
  }

  lemma TakenStep(b: Batch, s: Build, n: nat) returns (m: BalanceEvent)
    requires n < |b.events| && !Skipped(b, s, b.events[n]) && Step(b, s, b.events[n]).Some?
    requires
      var e := b.events[n];
      !ScamSignal(b.chain, e, Accumulated(s.balances, BalanceKey(e.address, b.tokenIds[e.contract], Liquid)).known)
    ensures Keeps(b, n, s, m, Step(b, s, b.events[n]).value)
  {
    var e := b.events[n];
    var before := Accumulated(s.balances, BalanceKey(e.address, b.tokenIds[e.contract], Liquid)).amount;
    m := Model(b, e, b.tokenIds[e.contract], before);
    ModelIsRow(b, e, before);
  }

  lemma KeepFollows(b: Batch, prefetched: map<BalanceKey, Accum>, denied: set<string>, n: nat, at: seq<int>,
                    s: Build, m: BalanceEvent, s': Build)
    requires n < |b.events| && Follows(b, prefetched, denied, n, at, s) && Chosen(b, prefetched, denied, at, n)
    requires Keeps(b, n, s, m, s')
    ensures Follows(b, prefetched, denied, n + 1, at + [n], s')
  {
    TraceTakes(b, prefetched, denied, n, at);
    NotYet(at, n);
    DroppedExtend(b, n, at);
    RowsExtend(b, at, s.models, n, m);
    TakeBalances(b, prefetched, n, at, s.balances, s'.balances);
  }

  lemma TakeFollows(
    b: Batch, prefetched: map<BalanceKey, Accum>, denied: set<string>, n: nat, at: seq<int>, s: Build)
    requires n < |b.events| && Follows(b, prefetched, denied, n, at, s) && Chosen(b, prefetched, denied, at, n)
    requires Step(b, s, b.events[n]).Some?
    ensures Follows(b, prefetched, denied, n + 1, at + [n], Step(b, s, b.events[n]).value)
  {
    var e := b.events[n];
    StepDecides(b, prefetched, denied, n, at, s);
    var m := TakenStep(b, s, n);
    KeepFollows(b, prefetched, denied, n, at, s, m, Step(b, s, e).value);
  }

  function Power10(n: nat): int {
    if n == 0 then 1 else 10 * Power10(n - 1)
  }

  lemma SixMoreZeros(n: nat)
    ensures Power10(n + 6) == 1_000000 * Power10(n)
  {
    assert Power10(n + 3) == 10 * Power10(n + 2) == 100 * Power10(n + 1) == 1000 * Power10(n);
    assert Power10(n + 6) == 10 * Power10(n + 5) == 100 * Power10(n + 4) == 1000 * Power10(n + 3);
  }

  lemma LimitIsPower()
    ensures AMOUNT_LIMIT == Power10(78)
  {
    var zero := 0;
    SixMoreZeros(zero);
    SixMoreZeros(zero + 6);
    SixMoreZeros(zero + 12);
    SixMoreZeros(zero + 18);
    SixMoreZeros(zero + 24);
    SixMoreZeros(zero + 30);
    SixMoreZeros(zero + 36);
    SixMoreZeros(zero + 42);
    SixMoreZeros(zero + 48);
    SixMoreZeros(zero + 54);
    SixMoreZeros(zero + 60);
    SixMoreZeros(zero + 66);
    SixMoreZeros(zero + 72);
  }

  /** The new balance of a chosen event would take more than 78 digits. */
  ghost predicate Overflows(b: Batch, prefetched: map<BalanceKey, Accum>, at: seq<int>, e: DecodedEvent)
    requires e.contract in b.tokenIds && forall m | 0 <= m < |at| :: 0 <= at[m] < |b.events|
  {
    var k := BalanceKey(e.address, b.tokenIds[e.contract], Liquid);
    var after := Accumulated(prefetched, k).amount + Moved(b, at, k) + e.delta;
    after <= -Power10(78) || after >= Power10(78)
  }

  lemma StepFailsExactly(
    b: Batch, prefetched: map<BalanceKey, Accum>, denied: set<string>, n: nat, at: seq<int>, s: Build)
    requires n < |b.events| && Follows(b, prefetched, denied, n, at, s)
    ensures Step(b, s, b.events[n]).None? <==>
            Chosen(b, prefetched, denied, at, n) && Overflows(b, prefetched, at, b.events[n])
  {
    StepDecides(b, prefetched, denied, n, at, s);
    LimitIsPower();
  }

  /** What is known once the loop has met the first `n` events. */
  ghost predicate Outcome(
    b: Batch, prefetched: map<BalanceKey, Accum>, denied: set<string>, n: nat, at: seq<int>,
    r: Option<Build>, learned: set<string>)
    requires n <= |b.events|
  {
    && Trace(b, prefetched, denied, n, at)
    && learned == denied + Dropped(b, n, at)
    && (if r.Some? then n == |b.events| && RowsFor(b, at, r.value.models) && r.value.denied == learned
        else
          && n < |b.events| && Chosen(b, prefetched, denied, at, n)
          && Overflows(b, prefetched, at, b.events[n]))
  }

  lemma {:induction false} BuildFollows(
    b: Batch, prefetched: map<BalanceKey, Accum>, denied: set<string>, n: nat, at: seq<int>, s: Build)
    returns (n': nat, at': seq<int>)
    requires n <= |b.events| && Follows(b, prefetched, denied, n, at, s)
    ensures n' <= |b.events|
    ensures Outcome(b, prefetched, denied, n', at', BuildAll(b, s, b.events[n..]), LearnedFrom(b, s, b.events[n..]))
    decreases |b.events| - n
  {
    if n == |b.events| {
      n', at' := n, at;
    } else {
      var e := b.events[n];
      assert b.events[n..][0] == e && b.events[n..][1..] == b.events[n + 1..];
      StepFailsExactly(b, prefetched, denied, n, at, s);
      if Step(b, s, e).None? {
        n', at' := n, at;
      } else if Chosen(b, prefetched, denied, at, n) {
        TakeFollows(b, prefetched, denied, n, at, s);
        n', at' := BuildFollows(b, prefetched, denied, n + 1, at + [n], Step(b, s, e).value);
      } else {
        DropFollows(b, prefetched, denied, n, at, s);
        n', at' := BuildFollows(b, prefetched, denied, n + 1, at, Step(b, s, e).value);
      }
    }
  }

  lemma StartFollows(b: Batch, prefetched: map<BalanceKey, Accum>, denied: set<string>)
    ensures Follows(b, prefetched, denied, 0, [], Build(prefetched, denied, [], map[]))
  {
    assert Dropped(b, 0, []) == {};
  }

  /**
   * The build, exactly: the models are, in order, the rows of the events whose token and transaction are
   * known, whose contract is not denied and has had no event dropped, and which are native, on BTC, or
   * unhinted and either not negative or of a balance that exists by then. The contracts learned are those
   * of the other known events. The loop ends early only at such an event whose new balance does not fit.
   */
  lemma BuildIsExact(b: Batch, prefetched: map<BalanceKey, Accum>, denied: set<string>)
    returns (n: nat, at: seq<int>)
    ensures n <= |b.events|
    ensures
      var s := Build(prefetched, denied, [], map[]);
      Outcome(b, prefetched, denied, n, at, BuildAll(b, s, b.events), LearnedFrom(b, s, b.events))
  {
    StartFollows(b, prefetched, denied);
    n, at := BuildFollows(b, prefetched, denied, 0, [], Build(prefetched, denied, [], map[]));
    assert b.events[0..] == b.events;
  }

  // ----- The conditions leave no choice -----

  lemma {:induction false} SameChosen(
    b: Batch, prefetched: map<BalanceKey, Accum>, denied: set<string>, n: nat, at: seq<int>, at': seq<int>, i: nat)
    requires n <= |b.events| && i <= n && Trace(b, prefetched, denied, n, at) && Trace(b, prefetched, denied, n, at')
    ensures forall j | 0 <= j < i :: j in at <==> j in at'
    decreases i
  {
    if i > 0 {
      SameChosen(b, prefetched, denied, n, at, at', i - 1);
      assert Settled(b, prefetched, denied, at, i - 1) && Settled(b, prefetched, denied, at', i - 1);
      assert Chosen(b, prefetched, denied, at, i - 1) <==> Chosen(b, prefetched, denied, at', i - 1);
    }
  }

  predicate Below(i: int, j: int) {
    i < j
  }

  /** There is only one trace. */
  lemma TraceIsUnique(
    b: Batch, prefetched: map<BalanceKey, Accum>, denied: set<string>, n: nat, at: seq<int>, at': seq<int>)
    requires n <= |b.events| && Trace(b, prefetched, denied, n, at) && Trace(b, prefetched, denied, n, at')
    ensures at == at'
  {
    SameChosen(b, prefetched, denied, n, at, at', n);
    forall i ensures i in at <==> i in at' {
      if i in at { var m :| 0 <= m < |at| && at[m] == i; }
      if i in at' { var m :| 0 <= m < |at'| && at'[m] == i; }
    }
    KeepBest.SortedUnique(at, at', Below);
  }

  // ----- From the tables -----

  /** What is prefetched for an event of the batch is its balance row: the amount, and whether there is one. */
  lemma PrefetchIsTable(l: Tables, b: Batch, e: DecodedEvent)
    requires e in b.events && e.contract in b.tokenIds
    ensures
      var k := BalanceKey(e.address, b.tokenIds[e.contract], Liquid);
      Accumulated(Prefetch(l.balances, b), k) == Accum(Amount(l.balances, k), k in l.balances)
  {
  }
}
