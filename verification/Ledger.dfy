/** The indexer's serving tables for one chain and network, and the law that ties balances to events. */
module Ledger {
  import opened Sums

  type Uuid = int
  type Address = string
  type TokenId = string

  /** The nil UUID, which no generated row id takes. */
  const NIL_UUID: Uuid := 0

  datatype Chain = Solana | BTC | Ethereum | Base | Polygon | Arbitrum | BSC

  datatype TokenType = Native | Fungible | NFT

  datatype Activity =
    | Deposit | Withdrawal | Stake | Unstake | ClaimReward | Fee | FeeExecutionL2 | FeeDataL1
    | Swap | Mint | Burn | Other | SelfTransfer

  datatype Finality =
    | Unset | Processed | Pending | Latest | Unsafe | Confirmed | Accepted | Safe | Finalized
    | Unrecognised(text: string)

  predicate IsStaking(a: Activity) {
    a == Stake || a == Unstake
  }

  /** How the ingester ranks a finality state: an unset state counts as finalized. */
  function ApplyRank(f: Finality): int {
    match f
    case Unset => 4
    case Processed => 1
    case Pending => 1
    case Latest => 1
    case Unsafe => 1
    case Confirmed => 2
    case Accepted => 2
    case Safe => 3
    case Finalized => 4
    case Unrecognised(_) => 0
  }

  /** How the `finality_rank` database function ranks it: an unset state is the weakest. */
  function StoreRank(f: Finality): int {
    match f
    case Finalized => 4
    case Safe => 3
    case Confirmed => 2
    case Pending => 1
    case _ => 0
  }

  /** Whether an event is strong enough to move a balance when it is ingested. */
  predicate MeetsBalanceThreshold(chain: Chain, finality: Finality, tokenType: TokenType, delta: int) {
    && (chain == Solana || ApplyRank(finality) >= 2)
    && (tokenType == Native || delta != 0)
  }

  datatype BalanceType = Liquid | Staked

  datatype BalanceKey = BalanceKey(address: Address, token: TokenId, kind: BalanceType)

  datatype Balance = Balance(amount: int, cursor: int, txHash: string, wallet: Option<string>, org: Option<string>)

  type Balances = map<BalanceKey, Balance>

  /** A row of `balance_events`, and the model the ingester builds for it. */
  datatype BalanceEvent = BalanceEvent(
    id: Uuid,
    eventId: string,
    txHash: string,
    token: TokenId,
    activity: Activity,
    address: Address,
    delta: int,
    watched: Address,
    wallet: Option<string>,
    org: Option<string>,
    cursor: int,
    applied: bool,
    finality: Finality,
    before: Option<int>,
    after: Option<int>)
  {
    /** What applying this event adds to the balance under `k`. */
    function Effect(k: BalanceKey): int {
      if k.address != address || k.token != token then 0
      else if k.kind == Liquid then delta
      else if IsStaking(activity) then -delta
      else 0
    }

    /** What this event, as stored, stands for in the balance under `k`. */
    function Weight(k: BalanceKey): int {
      if applied then Effect(k) else 0
    }
  }

  type EventTable = map<Uuid, BalanceEvent>

  datatype Block = Block(hash: string, parent: string, finality: Finality)

  datatype Tables = Tables(
    events: EventTable,
    balances: Balances,
    transactions: map<string, int>,
    blocks: map<int, Block>,
    watermark: Option<int>)

  function Amount(b: Balances, k: BalanceKey): int {
    if k in b then b[k].amount else 0
  }

  function Weights(t: EventTable, k: BalanceKey): map<Uuid, int> {
    map i | i in t :: t[i].Weight(k)
  }

  /** The sum of the deltas of all stored applied events that count towards `k`. */
  ghost function StoredSum(t: EventTable, k: BalanceKey): int {
    Total(Weights(t, k))
  }

  /** How far the balance under `k` is from what the stored events justify. */
  ghost function Drift(l: Tables, k: BalanceKey): int {
    Amount(l.balances, k) - StoredSum(l.events, k)
  }

  /** The ledger law: every liquid and staked balance equals the sum of its applied events. */
  ghost predicate Balanced(l: Tables) {
    forall k :: Drift(l, k) == 0
  }

  /** The partial unique index on `event_id`: a non-empty id names at most one row. */
  ghost predicate Unique(t: EventTable) {
    forall i, j | i in t && j in t && t[i].eventId == t[j].eventId != "" :: i == j
  }

  lemma StoredSumUpdate(t: EventTable, i: Uuid, e: BalanceEvent, k: BalanceKey)
    ensures StoredSum(t[i := e], k) == StoredSum(t, k) + e.Weight(k) - (if i in t then t[i].Weight(k) else 0)
  {
    TotalUpdate(Weights(t, k), i, e.Weight(k));
    assert Weights(t[i := e], k) == Weights(t, k)[i := e.Weight(k)];
  }

  lemma WeightsRestricted(t: EventTable, s: set<Uuid>, k: BalanceKey)
    ensures Weights(Restricted(t, s), k) == Restricted(Weights(t, k), s)
  {
  }

  lemma StoredSumSplit(t: EventTable, s: set<Uuid>, k: BalanceKey)
    ensures StoredSum(t, k) == StoredSum(t - s, k) + StoredSum(Restricted(t, s), k)
  {
    TotalSplit(Weights(t, k), s);
    WeightsRestricted(t, s, k);
    assert Weights(t - s, k) == Weights(t, k) - s;
  }
}
