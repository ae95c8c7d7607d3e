/** Solana event canonicalization: inner instructions owned by their outer instruction are not recorded twice. */
module SolanaCanon {
  import opened Sums
  import opened Ledger
  import opened Text
  import opened Identity
  import opened InstructionPaths
  import opened KeepBest
  import opened EventCanon

  /** The parts of a canonical Solana event id; instruction indices are truncated to 32 bits. */
  datatype PathKey = PathKey(outer: int, inner: int, actor: Address, asset: string, activity: Activity)

  type PathHash = PathKey -> string

  datatype OwnerKey = OwnerKey(outer: int, address: Address, asset: string, activity: Activity)

  /** An event on its way into the map, with where it came from. */
  datatype Candidate = Candidate(event: ChainEvent, fromOuter: bool, originalInner: int)

  function CandidateId(c: Candidate): string {
    c.event.id
  }

  function KeyOf(e: ChainEvent): PathKey {
    PathKey(Int32(e.outer), Int32(e.inner), e.address, e.asset, e.activity)
  }

  function OwnerOf(e: ChainEvent): OwnerKey {
    OwnerKey(e.outer, e.address, e.asset, e.activity)
  }

  function CanonicalFields(e: ChainEvent): ChainEvent {
    var contract := CanonicalAddressIdentity(Solana, e.contract);
    e.(address := CanonicalAddressIdentity(Solana, e.address),
       counterparty := CanonicalAddressIdentity(Solana, e.counterparty),
       contract := contract,
       asset := OrElse(CanonicalAddressIdentity(Solana, e.asset), contract))
  }

  function Placed(e: ChainEvent, at: Option<(int, int)>): ChainEvent {
    match at
    case Some((outer, inner)) => if e.activity == Fee then e else e.(outer := outer, inner := inner)
    case None => e
  }

  /** The first loop: canonical fields, and the instruction path from the metadata. */
  function Prepare(e: ChainEvent): ChainEvent {
    Placed(CanonicalFields(e), MetadataPath(e.metadata))
  }

  /** A non-fee event at the outer level of an instruction. */
  predicate IsOuter(e: ChainEvent) {
    e.activity != Fee && e.outer >= 0 && e.inner == -1
  }

  /** A non-fee event inside an instruction. */
  predicate IsInner(e: ChainEvent) {
    e.activity != Fee && e.outer >= 0 && e.inner > -1
  }

  function Owners(es: seq<ChainEvent>): set<OwnerKey> {
    set e | e in es && IsOuter(e) :: OwnerOf(e)
  }

  /** The body of the last loop up to the id. */
  function CandidateOf(owners: set<OwnerKey>, hash: PathHash, e: ChainEvent): Candidate {
    var fee :=
      if e.activity == Fee then
        e.(outer := -1, inner := -1, delta := FeeDelta(e.delta), action := "transaction_fee")
      else e;
    var owned := IsInner(fee) && OwnerOf(fee) in owners;
    var placed := if owned then fee.(inner := -1) else fee;
    var event := placed.(path := InstructionPath(placed.outer, placed.inner), id := hash(KeyOf(placed)));
    Candidate(event, fee.inner == -1, Int32(fee.inner))
  }

  /** shouldReplaceCanonicalSolanaEvent, for events of equal finality. */
  predicate ReplacesSolana(existing: Candidate, incoming: Candidate) {
    var a, b := existing.event, incoming.event;
    if a.activity == Fee || b.activity == Fee then
      if a.action != b.action then Less(b.action, a.action) else SmallerDelta(a.delta, b.delta)
    else if existing.fromOuter != incoming.fromOuter then incoming.fromOuter
    else if existing.originalInner != incoming.originalInner then incoming.originalInner < existing.originalInner
    else if a.action != b.action then Less(b.action, a.action)
    else if a.contract != b.contract then Less(b.contract, a.contract)
    else SmallerDelta(a.delta, b.delta)
  }

  // ----- The stable sort -----

  function ActivityName(a: Activity): string {
    match a
    case Deposit => "DEPOSIT"
    case Withdrawal => "WITHDRAWAL"
    case Stake => "STAKE"
    case Unstake => "UNSTAKE"
    case ClaimReward => "CLAIM_REWARD"
    case Fee => "FEE"
    case FeeExecutionL2 => "FEE_EXECUTION_L2"
    case FeeDataL1 => "FEE_DATA_L1"
    case Swap => "SWAP"
    case Mint => "MINT"
    case Burn => "BURN"
    case Other => "OTHER"
    case SelfTransfer => "SELF_TRANSFER"
  }

  predicate Before(a: ChainEvent, b: ChainEvent) {
    if a.activity != b.activity then Less(ActivityName(a.activity), ActivityName(b.activity))
    else if a.outer != b.outer then a.outer < b.outer
    else if a.inner != b.inner then a.inner < b.inner
    else if a.address != b.address then Less(a.address, b.address)
    else Less(a.contract, b.contract)
  }

  /** Where a stable insertion puts `e`: behind every event that is not after it. */
  function InsertStable(s: seq<ChainEvent>, e: ChainEvent): (r: seq<ChainEvent>)
    ensures multiset(r) == multiset(s) + multiset{e}
  {
    if s == [] || !Before(e, s[|s| - 1]) then s + [e]
    else
      assert s == s[..|s| - 1] + [s[|s| - 1]];
      InsertStable(s[..|s| - 1], e) + [s[|s| - 1]]
  }

  function SortStable(s: seq<ChainEvent>): (r: seq<ChainEvent>)
    ensures multiset(r) == multiset(s)
  {
    if s == [] then []
    else
      assert s == s[..|s| - 1] + [s[|s| - 1]];
      InsertStable(SortStable(s[..|s| - 1]), s[|s| - 1])
  }

  lemma SortMembers(s: seq<ChainEvent>)
    ensures forall e :: e in SortStable(s) <==> e in s
  {
    forall e ensures e in SortStable(s) <==> e in s {
      assert e in SortStable(s) <==> e in multiset(SortStable(s));
      assert e in s <==> e in multiset(s);
    }
  }

  // ----- The loop -----

  function Candidating(owners: set<OwnerKey>, hash: PathHash): ChainEvent -> Candidate {
    e => CandidateOf(owners, hash, e)
  }

  function CandidatesOf(owners: set<OwnerKey>, hash: PathHash, es: seq<ChainEvent>): seq<Candidate> {
    Mapped(Candidating(owners, hash), es)
  }

  /** The deduplicating loop as a fold. */
  function CollectSolana(cs: seq<Candidate>): (m: map<string, Candidate>)
    ensures forall k | k in m :: CandidateId(m[k]) == k
  {
    if cs == [] then map[]
    else
      var m, c := CollectSolana(cs[..|cs| - 1]), cs[|cs| - 1];
      if c.event.id !in m || ReplacesSolana(m[c.event.id], c) then m[c.event.id := c] else m
  }

  function Preparing(): ChainEvent -> ChainEvent {
    e => Prepare(e)
  }

  function PreparedOf(es: seq<ChainEvent>): seq<ChainEvent> {
    Mapped(Preparing(), es)
  }

  /** The candidates of a transaction's events, in the order the loop meets them. */
  function Met(hash: PathHash, es: seq<ChainEvent>): seq<Candidate> {
    CandidatesOf(Owners(PreparedOf(es)), hash, SortStable(PreparedOf(es)))
  }

  function EventsOf(m: map<string, Candidate>): map<string, ChainEvent> {
    map k | k in m :: m[k].event
  }

  /** canonicalizeSolanaBalanceEvents. */
  method CanonicalizeSolanaEvents(hash: PathHash, es: seq<ChainEvent>) returns (out: seq<ChainEvent>)
    ensures SortedValues(EventsOf(CollectSolana(Met(hash, es))), out)
  {
    var prepared := PrepareAll(Preparing(), es);
    var owners := FindOwners(prepared);
    out := CollectAndSort(Candidating(owners, hash), SortStable(prepared));
  }

  method PrepareAll(prepare: ChainEvent -> ChainEvent, es: seq<ChainEvent>) returns (prepared: seq<ChainEvent>)
    ensures prepared == Mapped(prepare, es)
  {
    prepared := [];
    for i := 0 to |es|
      invariant prepared == Mapped(prepare, es[..i])
    {
      MappedExtend(prepare, es, i);
      prepared := prepared + [prepare(es[i])];
    }
    assert es[..|es|] == es;
  }

  method FindOwners(es: seq<ChainEvent>) returns (owners: set<OwnerKey>)
    ensures owners == Owners(es)
  {
    owners := {};
    for i := 0 to |es|
      invariant owners == Owners(es[..i])
    {
      assert es[..i + 1] == es[..i] + [es[i]];
      OwnersExtend(es[..i], es[i]);
      if IsOuter(es[i]) { owners := owners + {OwnerOf(es[i])}; }
    }
    assert es[..|es|] == es;
  }

  method CollectAndSort(candidate: ChainEvent -> Candidate, es: seq<ChainEvent>) returns (out: seq<ChainEvent>)
    ensures SortedValues(EventsOf(CollectSolana(Mapped(candidate, es))), out)
  {
    var kept: map<string, Candidate> := map[];
    for i := 0 to |es|
      invariant kept == CollectSolana(Mapped(candidate, es[..i]))
    {
      MappedExtend(candidate, es, i);
      var c := candidate(es[i]);
      CollectExtend(Mapped(candidate, es[..i]), c);
      if c.event.id !in kept || ReplacesSolana(kept[c.event.id], c) { kept := kept[c.event.id := c]; }
    }
    assert es[..|es|] == es;
    assert Keyed(EventsOf(kept)) by { assert forall k | k in kept :: CandidateId(kept[k]) == k; }
    out := SortById(EventsOf(kept));
  }

  lemma CollectExtend(cs: seq<Candidate>, c: Candidate)
    ensures
      var m := CollectSolana(cs);
      CollectSolana(cs + [c]) == if c.event.id !in m || ReplacesSolana(m[c.event.id], c) then m[c.event.id := c] else m
  {
    assert (cs + [c])[..|cs|] == cs;
  }

  lemma OwnersExtend(es: seq<ChainEvent>, e: ChainEvent)
    ensures Owners(es + [e]) == Owners(es) + if IsOuter(e) then {OwnerOf(e)} else {}
  {
    assert forall x :: x in es + [e] <==> x in es || x == e;
  }

  // ----- What survives -----

  lemma {:induction false} CollectMembers(cs: seq<Candidate>)
    ensures forall c | c in cs :: CandidateId(c) in CollectSolana(cs)
    ensures forall k | k in CollectSolana(cs) :: CollectSolana(cs)[k] in cs
    decreases |cs|
  {
    if cs != [] {
      CollectMembers(cs[..|cs| - 1]);
      assert forall c :: c in cs <==> c in cs[..|cs| - 1] || c == cs[|cs| - 1];
    }
  }

  /** Once an outer-level candidate of an id has been met, the kept one is outer-level, whatever the deltas. */
  lemma {:induction false} OuterIsKept(cs: seq<Candidate>, c: Candidate)
    requires c in cs && c.fromOuter
    requires forall x | x in cs && x.event.id == c.event.id :: x.event.activity != Fee
    ensures c.event.id in CollectSolana(cs) && CollectSolana(cs)[c.event.id].fromOuter
    decreases |cs|
  {
    var init, last := cs[..|cs| - 1], cs[|cs| - 1];
    assert forall x :: x in cs <==> x in init || x == last;
    CollectMembers(init);
    if c in init { OuterIsKept(init, c); }
    if c.event.id in CollectSolana(init) {
      assert CandidateId(CollectSolana(init)[c.event.id]) == c.event.id;
      assert CollectSolana(init)[c.event.id] in cs;
    }
  }

  ghost predicate Injective(hash: PathHash) {
    forall a, b | hash(a) == hash(b) :: a == b
  }

  lemma MetFrom(hash: PathHash, es: seq<ChainEvent>, c: Candidate) returns (x: ChainEvent)
    requires c in Met(hash, es)
    ensures x in PreparedOf(es) && c == CandidateOf(Owners(PreparedOf(es)), hash, x)
  {
    var prepared := PreparedOf(es);
    var sorted := SortStable(prepared);
    SortMembers(prepared);
    MappedMember(Candidating(Owners(prepared), hash), sorted, c);
    x :| x in sorted && Candidating(Owners(prepared), hash)(x) == c;
  }

  lemma MetOf(hash: PathHash, es: seq<ChainEvent>, x: ChainEvent)
    requires x in PreparedOf(es)
    ensures CandidateOf(Owners(PreparedOf(es)), hash, x) in Met(hash, es)
  {
    var prepared := PreparedOf(es);
    SortMembers(prepared);
    assert x in SortStable(prepared) &&
      Candidating(Owners(prepared), hash)(x) == CandidateOf(Owners(prepared), hash, x);
    MappedMember(Candidating(Owners(prepared), hash), SortStable(prepared), CandidateOf(Owners(prepared), hash, x));
  }

  /** A candidate's id is the hash of its own key. */
  lemma IdIsHash(owners: set<OwnerKey>, hash: PathHash, x: ChainEvent)
    ensures
      var c := CandidateOf(owners, hash, x);
      c.event.id == hash(KeyOf(c.event)) && c.event.activity == x.activity
  {
  }

  /** Every output event comes from a candidate; which one, and from which input, is recorded here. */
  lemma SurvivorFrom(hash: PathHash, es: seq<ChainEvent>, out: seq<ChainEvent>, o: ChainEvent)
    returns (c: Candidate, x: ChainEvent)
    requires SortedValues(EventsOf(CollectSolana(Met(hash, es))), out) && o in out
    ensures o.id in CollectSolana(Met(hash, es)) && c == CollectSolana(Met(hash, es))[o.id] && c.event == o
    ensures x in PreparedOf(es) && c == CandidateOf(Owners(PreparedOf(es)), hash, x)
  {
    c := CollectSolana(Met(hash, es))[o.id];
    CollectMembers(Met(hash, es));
    x := MetFrom(hash, es, c);
  }

  /** Output event `o` is what an outer-level input event became. */
  ghost predicate FromOuterLevel(hash: PathHash, es: seq<ChainEvent>, o: ChainEvent) {
    exists x | x in PreparedOf(es) ::
      x.activity != Fee && x.inner == -1 && o == CandidateOf(Owners(PreparedOf(es)), hash, x).event
  }

  /**
   * If an outer-level non-fee event exists for an instruction, address, asset and activity, then the
   * output holds exactly one event with that outer path, and it stems from an outer-level event.
   */
  lemma OwnerSurvivesOnce(hash: PathHash, es: seq<ChainEvent>, out: seq<ChainEvent>, e: ChainEvent)
    requires Injective(hash) && SortedValues(EventsOf(CollectSolana(Met(hash, es))), out)
    requires e in PreparedOf(es) && e.activity != Fee && e.outer >= 0 && e.inner == -1
    ensures exists o | o in out :: KeyOf(o) == KeyOf(e) && FromOuterLevel(hash, es, o)
    ensures forall o1, o2 | o1 in out && o2 in out && KeyOf(o1) == KeyOf(o2) == KeyOf(e) :: o1 == o2
  {
    var owners, met := Owners(PreparedOf(es)), Met(hash, es);
    var c := CandidateOf(owners, hash, e);
    MetOf(hash, es, e);
    assert c.fromOuter && KeyOf(c.event) == KeyOf(e);
    forall x | x in met && x.event.id == c.event.id ensures x.event.activity != Fee {
      var y := MetFrom(hash, es, x);
      IdIsHash(owners, hash, y);
      IdIsHash(owners, hash, e);
    }
    OuterIsKept(met, c);
    var o := CollectSolana(met)[c.event.id].event;
    KeptSurvives(hash, es, out, c.event.id);
    var k, x := SurvivorFrom(hash, es, out, o);
    SameKey(owners, hash, x, e);
    OuterStays(owners, hash, x);
    assert FromOuterLevel(hash, es, o);
    forall o1, o2 | o1 in out && o2 in out && KeyOf(o1) == KeyOf(o2) == KeyOf(e) ensures o1 == o2 {
      OutputIds(hash, es, out, o1);
      OutputIds(hash, es, out, o2);
    }
  }

  lemma KeptSurvives(hash: PathHash, es: seq<ChainEvent>, out: seq<ChainEvent>, id: string)
    requires SortedValues(EventsOf(CollectSolana(Met(hash, es))), out)
    requires id in CollectSolana(Met(hash, es))
    ensures CollectSolana(Met(hash, es))[id].event in out
    ensures CollectSolana(Met(hash, es))[id].event.id == id
  {
    assert CandidateId(CollectSolana(Met(hash, es))[id]) == id;
  }

  lemma SameKey(owners: set<OwnerKey>, hash: PathHash, x: ChainEvent, e: ChainEvent)
    requires Injective(hash) && CandidateOf(owners, hash, x).event.id == CandidateOf(owners, hash, e).event.id
    ensures KeyOf(CandidateOf(owners, hash, x).event) == KeyOf(CandidateOf(owners, hash, e).event)
    ensures x.activity == e.activity
  {
    IdIsHash(owners, hash, x);
    IdIsHash(owners, hash, e);
  }

  /** A non-fee candidate is marked outer-level only if its event was. */
  lemma OuterStays(owners: set<OwnerKey>, hash: PathHash, x: ChainEvent)
    ensures x.activity != Fee && CandidateOf(owners, hash, x).fromOuter ==> x.inner == -1
  {
  }

  lemma OutputIds(hash: PathHash, es: seq<ChainEvent>, out: seq<ChainEvent>, o: ChainEvent)
    requires SortedValues(EventsOf(CollectSolana(Met(hash, es))), out) && o in out
    ensures o.id == hash(KeyOf(o))
    ensures o == CollectSolana(Met(hash, es))[o.id].event
  {
    var c, x := SurvivorFrom(hash, es, out, o);
    IdIsHash(Owners(PreparedOf(es)), hash, x);
  }

  /** And no inner event for that instruction, address, asset and activity survives. */
  lemma NoOwnedInnerSurvives(hash: PathHash, es: seq<ChainEvent>, out: seq<ChainEvent>, e: ChainEvent, o: ChainEvent)
    requires SortedValues(EventsOf(CollectSolana(Met(hash, es))), out)
    requires e in PreparedOf(es) && e.activity != Fee && e.outer >= 0 && e.inner == -1
    requires o in out && o.outer == e.outer && o.address == e.address && o.asset == e.asset && o.activity == e.activity
    ensures o.inner <= -1
  {
    var c, x := SurvivorFrom(hash, es, out, o);
    var owners := Owners(PreparedOf(es));
    assert IsOuter(e) && OwnerOf(e) in owners && OwnerOf(o) == OwnerOf(e);
    InnerIsUnowned(owners, hash, x);
  }

  lemma InnerIsUnowned(owners: set<OwnerKey>, hash: PathHash, x: ChainEvent)
    ensures
      var o := CandidateOf(owners, hash, x).event;
      IsInner(o) ==> OwnerOf(o) !in owners
  {
  }

  /** Nothing else is dropped: every event's id is in the output, once. */
  lemma EveryIdSurvives(hash: PathHash, es: seq<ChainEvent>, out: seq<ChainEvent>, x: ChainEvent)
    requires SortedValues(EventsOf(CollectSolana(Met(hash, es))), out) && x in PreparedOf(es)
    ensures exists o | o in out :: o.id == CandidateOf(Owners(PreparedOf(es)), hash, x).event.id
    ensures forall o1, o2 | o1 in out && o2 in out && o1.id == o2.id :: o1 == o2
  {
    var c := CandidateOf(Owners(PreparedOf(es)), hash, x);
    MetOf(hash, es, x);
    CollectMembers(Met(hash, es));
    assert CandidateId(c) in CollectSolana(Met(hash, es));
    KeptSurvives(hash, es, out, c.event.id);
  }
}
