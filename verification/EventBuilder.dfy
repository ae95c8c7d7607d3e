/** Phase 3 of a batch: balances accumulated in memory, scam detection, event models and aggregated deltas. */
module EventBuilder {
  import opened Sums
  import opened Ledger

  datatype Owner = Owner(wallet: Option<string>, org: Option<string>)

  /** A decoded balance event with the transaction it belongs to. `id` is the row id the database would generate. */
  datatype DecodedEvent = DecodedEvent(
    id: Uuid, eventId: string, contract: string, txHash: string, address: Address, counterparty: Address,
    activity: Activity, delta: int, tokenType: TokenType, finality: Finality, cursor: int, scamHint: bool)

  datatype Batch = Batch(
    chain: Chain,
    blockScan: bool,
    address: Address,
    owner: Owner,
    owners: map<Address, Owner>,
    tokenIds: map<string, TokenId>,
    txIds: set<string>,
    events: seq<DecodedEvent>,
    transactions: map<string, int>,
    blocks: map<int, Block>,
    newSequence: int)

  datatype Accum = Accum(amount: int, known: bool)

  /** Deltas are aggregated per balance, wallet and organization. */
  datatype AdjustKey = AdjustKey(key: BalanceKey, wallet: string, org: string)

  datatype AdjustAccum = AdjustAccum(delta: int, cursor: int, txHash: string)

  datatype Build = Build(
    balances: map<BalanceKey, Accum>,
    denied: set<string>,
    models: seq<BalanceEvent>,
    deltas: map<AdjustKey, AdjustAccum>)

  /** Amounts of 79 digits and more do not fit numeric(78,0). */
  const AMOUNT_LIMIT: int :=
    1_000000_000000_000000_000000_000000_000000_000000_000000_000000_000000_000000_000000_000000

  function OrEmpty(s: Option<string>): string {
    if s.Some? then s.value else ""
  }

  function NonEmpty(s: string): Option<string> {
    if s == "" then None else Some(s)
  }

  /** The owner and the watched address recorded for an event: its address first, then its counterparty. */
  function Resolve(b: Batch, e: DecodedEvent): (Owner, Address) {
    if !b.blockScan then (b.owner, b.address)
    else if e.address != "" && e.address in b.owners then (b.owners[e.address], e.address)
    else if e.counterparty != "" && e.counterparty in b.owners then (b.owners[e.counterparty], e.counterparty)
    else (b.owner, e.address)
  }

  predicate ScamSignal(chain: Chain, e: DecodedEvent, known: bool) {
    && e.tokenType != Native
    && chain != BTC
    && (e.scamHint || (e.delta < 0 && !known))
  }

  function Accumulated(balances: map<BalanceKey, Accum>, k: BalanceKey): Accum {
    if k in balances then balances[k] else Accum(0, false)
  }

  function Added(
    deltas: map<AdjustKey, AdjustAccum>, ak: AdjustKey, delta: int, e: DecodedEvent): map<AdjustKey, AdjustAccum>
  {
    if ak !in deltas then deltas[ak := AdjustAccum(delta, e.cursor, e.txHash)]
    else
      var prior := deltas[ak];
      var sum := prior.(delta := prior.delta + delta);
      deltas[ak := if e.cursor > prior.cursor then sum.(cursor := e.cursor, txHash := e.txHash) else sum]
  }

  function Model(b: Batch, e: DecodedEvent, token: TokenId, before: int): BalanceEvent {
    var (owner, watched) := Resolve(b, e);
    var applied := MeetsBalanceThreshold(b.chain, e.finality, e.tokenType, e.delta);
    BalanceEvent(e.id, e.eventId, e.txHash, token, e.activity, e.address, e.delta, watched, owner.wallet, owner.org,
                 e.cursor, applied, e.finality,
                 if applied then Some(before) else None, if applied then Some(before + e.delta) else None)
  }

  /** The aggregated deltas after `m` is applied: the liquid entry, and the inverted staked one for staking. */
  function Aggregated(
    deltas: map<AdjustKey, AdjustAccum>, m: BalanceEvent, e: DecodedEvent): map<AdjustKey, AdjustAccum>
  {
    var liquid := Added(deltas, AdjustKey(LiquidKey(m), OrEmpty(m.wallet), OrEmpty(m.org)), e.delta, e);
    if IsStaking(m.activity) then
      Added(liquid, AdjustKey(LiquidKey(m).(kind := Staked), OrEmpty(m.wallet), OrEmpty(m.org)), -e.delta, e)
    else liquid
  }

  function LiquidKey(m: BalanceEvent): BalanceKey {
    BalanceKey(m.address, m.token, Liquid)
  }

  predicate Skipped(b: Batch, s: Build, e: DecodedEvent) {
    e.contract !in b.tokenIds || e.txHash !in b.txIds || e.contract in s.denied
  }

  /** One iteration of buildEventModels; None when the new balance overflows. */
  function Step(b: Batch, s: Build, e: DecodedEvent): Option<Build> {
    if Skipped(b, s, e) then Some(s)
    else
      var k := BalanceKey(e.address, b.tokenIds[e.contract], Liquid);
      var acc := Accumulated(s.balances, k);
      if ScamSignal(b.chain, e, acc.known) then
        Some(s.(denied := s.denied + {e.contract}, balances := s.balances[k := acc]))
      else if !(-AMOUNT_LIMIT < acc.amount + e.delta < AMOUNT_LIMIT) then None
      else
        var m := Model(b, e, b.tokenIds[e.contract], acc.amount);
        if m.applied then
          Some(Build(s.balances[k := Accum(acc.amount + e.delta, true)], s.denied, s.models + [m],
                     Aggregated(s.deltas, m, e)))
        else
          Some(s.(balances := s.balances[k := acc], models := s.models + [m]))
  }

  function BuildAll(b: Batch, s: Build, events: seq<DecodedEvent>): Option<Build>
    decreases |events|
  {
    if events == [] then Some(s)
    else match Step(b, s, events[0])
      case None => None
      case Some(s') => BuildAll(b, s', events[1..])
  }

  /** The denied-token cache after the loop. An overflow ends the loop but does not undo the denials before it. */
  function LearnedFrom(b: Batch, s: Build, events: seq<DecodedEvent>): set<string>
    decreases |events|
  {
    if events == [] then s.denied
    else match Step(b, s, events[0])
      case None => s.denied
      case Some(s') => LearnedFrom(b, s', events[1..])
  }

  lemma {:induction false} LearnedExtend(b: Batch, s: Build, events: seq<DecodedEvent>, n: nat)
    requires n <= |events| && BuildAll(b, s, events[..n]).Some?
    ensures LearnedFrom(b, s, events) == LearnedFrom(b, BuildAll(b, s, events[..n]).value, events[n..])
    decreases n
  {
    if n == 0 {
      assert events[..0] == [] && events[0..] == events;
    } else {
      assert events[..n][0] == events[0] && events[..n][1..] == events[1..][..n - 1] &&
        events[1..][n - 1..] == events[n..];
      LearnedExtend(b, Step(b, s, events[0]).value, events[1..], n - 1);
    }
  }

  /** BulkGetAmountWithExistsTx over the liquid keys of the batch; missing rows read as 0. */
  function Prefetch(balances: Balances, b: Batch): map<BalanceKey, Accum> {
    var keys := set e | e in b.events && e.contract in b.tokenIds ::
      BalanceKey(e.address, b.tokenIds[e.contract], Liquid);
    map k | k in keys :: if k in balances then Accum(balances[k].amount, true) else Accum(0, false)
  }

  function Start(balances: Balances, b: Batch, denied: set<string>): Build {
    Build(Prefetch(balances, b), denied, [], map[])
  }

  lemma {:induction false} BuildAllExtend(b: Batch, s: Build, events: seq<DecodedEvent>, e: DecodedEvent)
    ensures BuildAll(b, s, events + [e]) ==
            match BuildAll(b, s, events) { case None => None case Some(s') => Step(b, s', e) }
    decreases |events|
  {
    if events == [] {
      assert [] + [e] == [e] && [e][1..] == [];
    } else {
      assert (events + [e])[1..] == events[1..] + [e];
      match Step(b, s, events[0])
      case None =>
      case Some(s') => BuildAllExtend(b, s', events[1..], e);
    }
  }

  /** buildEventModels: one pass over the events, updating the in-memory balances and aggregates. */
  method BuildEventModels(b: Batch, prefetched: map<BalanceKey, Accum>, denied: set<string>)
    returns (r: Option<Build>, learned: set<string>)
    ensures r == BuildAll(b, Build(prefetched, denied, [], map[]), b.events)
    ensures learned == LearnedFrom(b, Build(prefetched, denied, [], map[]), b.events)
  {
    var balances, denylist, models, deltas := prefetched, denied, [], map[];
    ghost var s0 := Build(prefetched, denied, [], map[]);
    var i := 0;
    while i < |b.events|
      invariant 0 <= i <= |b.events|
      invariant BuildAll(b, s0, b.events[..i]) == Some(Build(balances, denylist, models, deltas))
    {
      var e := b.events[i];
      assert b.events[..i + 1] == b.events[..i] + [e];
      BuildAllExtend(b, s0, b.events[..i], e);
      assert b.events == b.events[..i + 1] + b.events[i + 1..];
      i := i + 1;
      if e.contract !in b.tokenIds || e.txHash !in b.txIds || e.contract in denylist { continue; }
      var k := BalanceKey(e.address, b.tokenIds[e.contract], Liquid);
      ghost var was := balances;
      if k !in balances { balances := balances[k := Accum(0, false)]; }
      assert balances == was[k := Accumulated(was, k)];
      var before, known := balances[k].amount, balances[k].known;
      if ScamSignal(b.chain, e, known) {
        denylist := denylist + {e.contract};
        continue;
      }
      var after := before + e.delta;
      if !(-AMOUNT_LIMIT < after < AMOUNT_LIMIT) {
        BuildAllPrefixFails(b, s0, b.events, i);
        OverflowLearns(b, s0, b.events, i - 1);
        return None, denylist;
      }
      var m := Model(b, e, b.tokenIds[e.contract], before);
      models := models + [m];
      if m.applied {
        balances := balances[k := Accum(after, true)];
        assert balances == was[k := Accum(after, true)];
        deltas := Added(deltas, AdjustKey(k, OrEmpty(m.wallet), OrEmpty(m.org)), e.delta, e);
        if IsStaking(m.activity) {
          deltas := Added(deltas, AdjustKey(k.(kind := Staked), OrEmpty(m.wallet), OrEmpty(m.org)), -e.delta, e);
        }
      }
    }
    assert b.events[..i] == b.events;
    LearnedExtend(b, s0, b.events, |b.events|);
    r, learned := Some(Build(balances, denylist, models, deltas)), denylist;
  }

  lemma OverflowLearns(b: Batch, s: Build, events: seq<DecodedEvent>, n: nat)
    requires n < |events| && BuildAll(b, s, events[..n]).Some?
    requires Step(b, BuildAll(b, s, events[..n]).value, events[n]).None?
    ensures LearnedFrom(b, s, events) == BuildAll(b, s, events[..n]).value.denied
  {
    LearnedExtend(b, s, events, n);
    assert events[n..][0] == events[n];
  }

  lemma {:induction false} BuildAllPrefixFails(b: Batch, s: Build, events: seq<DecodedEvent>, n: nat)
    requires n <= |events| && BuildAll(b, s, events[..n]).None?
    ensures BuildAll(b, s, events).None?
    decreases n
  {
    if n > 0 {
      assert events[..n][0] == events[0] && events[..n][1..] == events[1..][..n - 1];
      match Step(b, s, events[0])
      case None =>
      case Some(s') => BuildAllPrefixFails(b, s', events[1..], n - 1);
    }
  }
}
