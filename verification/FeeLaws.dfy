/** What becomes of the fields of an event, and of fee amounts in particular, when events are canonicalized. */
module FeeLaws {
  import opened Sums
  import opened Ledger
  import opened Text
  import opened Identity
  import opened InstructionPaths
  import opened KeepBest
  import opened EventCanon
  import SolanaCanon

  // ----- Decimal texts -----

  lemma DigitsAppend(s: string, c: char)
    requires AllDigits(s) && '0' <= c <= '9'
    ensures AllDigits(s + [c]) && DigitsValue(s + [c]) == 10 * DigitsValue(s) + (c as int - '0' as int)
  {
    assert (s + [c])[..|s|] == s;
  }

  lemma {:induction false} DigitsAreNatural(s: string)
    requires AllDigits(s)
    ensures DigitsValue(s) >= 0
    decreases |s|
  {
    if s != "" { DigitsAreNatural(s[..|s| - 1]); }
  }

  lemma OneDigitText(n: nat)
    requires n < 10
    ensures FormatNat(n) == [(n + '0' as int) as char] && AllDigits(FormatNat(n)) && DigitsValue(FormatNat(n)) == n
  {
    assert FormatNat(n)[..0] == "";
  }

  /** Formatting and reading a number are inverse. */
  lemma {:induction false} FormatNatReads(n: nat)
    ensures FormatNat(n) != "" && AllDigits(FormatNat(n)) && DigitsValue(FormatNat(n)) == n
    decreases n
  {
    OneDigitText(n % 10);
    if n >= 10 {
      FormatNatReads(n / 10);
      DigitsAppend(FormatNat(n / 10), ((n % 10) + '0' as int) as char);
    }
  }

  lemma ParseFormat(n: int)
    ensures ParseDecimal(FormatInt(n)) == Some(n)
  {
    if n < 0 {
      FormatNatReads(-n);
      NegatedText(FormatNat(-n));
    } else {
      FormatNatReads(n);
      PlainDigits(FormatNat(n));
    }
  }

  lemma PlainDigits(s: string)
    requires s != "" && AllDigits(s)
    ensures ParseDecimal(s) == Some(DigitsValue(s))
  {
    assert '0' <= s[0] <= '9';
  }

  lemma NegatedText(body: string)
    requires body != "" && AllDigits(body)
    ensures ParseDecimal("-" + body) == Some(-DigitsValue(body))
  {
    assert ("-" + body)[1..] == body;
  }

  lemma MinusZero()
    ensures ParseDecimal("-0") == Some(0)
  {
    OneDigitText(0);
    NegatedText("0");
  }

  // ----- Fee amounts -----

  predicate IsSign(c: char) {
    c == '+' || c == '-'
  }

  /** A sign, another sign, and digits: not a decimal, but taken for one once the first sign is cut off. */
  predicate DoublySigned(s: string) {
    |s| >= 3 && IsSign(s[0]) && IsSign(s[1]) && AllDigits(s[2..])
  }

  /** `fee` is `amount` as a debit: minus its magnitude, or minus zero if it does not read as a number. */
  predicate FeeOf(amount: string, fee: string) {
    FeeOfClean(TrimSpace(amount), fee)
  }

  predicate FeeOfClean(clean: string, fee: string) {
    match ParseDecimal(clean)
    case Some(n) => ParseDecimal(fee) == Some(if n > 0 then -n else n)
    case None =>
      if !DoublySigned(clean) then fee == "-0"
      else if clean[1] == '-' && DigitsValue(clean[2..]) > 0 then ParseDecimal(fee) == None
      else ParseDecimal(fee) == Some(-DigitsValue(clean[2..]))
  }

  /** A decimal is its magnitude in digits behind at most one sign. */
  lemma DecimalParts(clean: string)
    requires ParseDecimal(clean).Some?
    ensures Unsigned(clean) != "" && AllDigits(Unsigned(clean))
    ensures
      var n, magnitude := ParseDecimal(clean).value, DigitsValue(Unsigned(clean));
      magnitude >= 0 && (n == magnitude || n == -magnitude)
  {
    DigitsAreNatural(Unsigned(clean));
  }

  lemma DigitFee(body: string)
    requires body != "" && AllDigits(body)
    ensures ParseDecimal(FeeText(body)) == Some(-DigitsValue(body))
  {
    NegatedText(body);
  }

  lemma SignedParts(body: string)
    requires |body| >= 2 && IsSign(body[0]) && AllDigits(body[1..])
    ensures !AllDigits(body) && DigitsValue(body[1..]) >= 0
    ensures ParseDecimal(body) == Some(if body[0] == '-' then -DigitsValue(body[1..]) else DigitsValue(body[1..]))
  {
    DigitsAreNatural(body[1..]);
    assert IsSign(body[0]);
  }

  lemma MinusNumber(n: int)
    ensures ParseDecimal("-" + FormatInt(n)) == if n < 0 then None else Some(-n)
  {
    if n < 0 {
      NotADecimal(FormatInt(n));
    } else {
      FormatNatReads(n);
      NegatedText(FormatInt(n));
    }
  }

  lemma SignedFee(body: string)
    requires |body| >= 2 && IsSign(body[0]) && AllDigits(body[1..])
    ensures ParseDecimal(FeeText(body)) ==
            if body[0] == '-' && DigitsValue(body[1..]) > 0 then None else Some(-DigitsValue(body[1..]))
  {
    SignedParts(body);
    var n := ParseDecimal(body).value;
    NumberFee(body, n);
    MinusZero();
    MinusNumber(n);
  }

  lemma NumberFee(body: string, n: int)
    requires body != "" && IsSign(body[0]) && !AllDigits(body) && ParseDecimal(body) == Some(n)
    ensures FeeText(body) == if n == 0 then "-0" else "-" + FormatInt(n)
  {
  }

  lemma NotADecimal(s: string)
    requires s != "" && IsSign(s[0])
    ensures ParseDecimal("-" + s) == None
  {
    assert ("-" + s)[1..] == s && !AllDigits(s);
  }

  lemma DoubleSignParts(clean: string)
    requires DoublySigned(clean)
    ensures ParseDecimal(clean).None? && Unsigned(clean) == clean[1..] && clean[1..][1..] == clean[2..]
  {
    assert !AllDigits(clean[1..]) by { assert IsSign(clean[1..][0]); }
  }

  lemma UnreadableFee(clean: string)
    requires ParseDecimal(clean).None? && !DoublySigned(clean)
    ensures FeeText(Unsigned(clean)) == "-0"
  {
    var body := Unsigned(clean);
    if body != "" && IsSign(body[0]) { assert IsSign(clean[0]) && body[1..] == clean[2..]; }
  }

  lemma CleanFeeMeans(clean: string)
    ensures FeeOfClean(clean, FeeText(Unsigned(clean)))
  {
    if ParseDecimal(clean).Some? {
      DecimalParts(clean);
      DigitFee(Unsigned(clean));
    } else if DoublySigned(clean) {
      DoubleSignParts(clean);
      SignedFee(clean[1..]);
    } else {
      UnreadableFee(clean);
    }
  }

  /** canonicalFeeDelta debits the account by the magnitude of the amount. */
  lemma FeeDeltaMeans(amount: string)
    ensures FeeOf(amount, FeeDelta(amount))
  {
    CleanFeeMeans(TrimSpace(amount));
  }

  /** A canonical fee is a number that is not positive, except for a non-zero amount after a sign and a minus. */
  lemma FeeIsDebitExactly(amount: string)
    ensures
      var clean, fee := TrimSpace(amount), ParseDecimal(FeeDelta(amount));
      fee.Some? && fee.value <= 0 <==>
      !(DoublySigned(clean) && clean[1] == '-' && DigitsValue(clean[2..]) > 0)
  {
    var clean := TrimSpace(amount);
    CleanFeeMeans(clean);
    MinusZero();
    if DoublySigned(clean) {
      DoubleSignParts(clean);
      DigitsAreNatural(clean[2..]);
    }
  }

  /** Concretely, "+-5" becomes "--5", which is no number. */
  lemma DoublySignedFee(digit: char)
    requires '1' <= digit <= '9'
    ensures ParseDecimal(FeeDelta(['+', '-', digit])) == None
  {
    var amount := ['+', '-', digit];
    assert Trimmed(amount);
    assert amount[2..] == [digit] && [digit][..0] == "" && AllDigits([digit]);
    assert DigitsValue([digit]) == digit as int - '0' as int;
    DoubleSignParts(amount);
    CleanFeeMeans(amount);
  }

  // ----- EVM chains -----

  /** The id is that of the event's own path, address, asset and activity. */
  predicate Identified(hash: IdHash, o: ChainEvent) {
    o.path != "" && o.id == hash(IdKey(o.path, o.address, o.asset, o.activity))
  }

  predicate IsFee(a: Activity) {
    a == Fee || a == FeeExecutionL2 || a == FeeDataL1
  }

  /** The path comes from the metadata if it names one, otherwise from the event or its instruction. */
  predicate BasePlaced(e: ChainEvent, o: ChainEvent) {
    var direct := TrimSpace(Lookup(e.metadata, "event_path"));
    && (direct != "" ==> o.path == direct)
    && (e.metadata == map[] ==> o.path == OrElse(TrimSpace(e.path), InstructionPath(e.outer, e.inner)))
  }

  /** The output event stems from the input event: fees debited, other deltas kept, identities made canonical. */
  predicate BaseStems(chain: Chain, hash: IdHash, e: ChainEvent, o: ChainEvent) {
    && o.activity == e.activity && o.tokenType == e.tokenType && o.metadata == e.metadata
    && o.outer == e.outer && o.inner == e.inner
    && (if IsFee(e.activity) then FeeOf(e.delta, o.delta) else o.delta == e.delta)
    && (e.activity == FeeExecutionL2 ==> o.action == "FEE_EXECUTION_L2")
    && (e.activity == FeeDataL1 ==> o.action == "FEE_DATA_L1")
    && (e.activity != FeeExecutionL2 && e.activity != FeeDataL1 ==> o.action == e.action)
    && BasePlaced(e, o)
    && o.address == CanonicalAddressIdentity(chain, e.address)
    && o.counterparty == CanonicalAddressIdentity(chain, e.counterparty)
    && o.contract == CanonicalAddressIdentity(chain, e.contract)
    && (o.asset == CanonicalAddressIdentity(chain, e.asset) || (TrimSpace(e.asset) == "" && o.asset == o.contract))
    && Identified(hash, o)
  }

  lemma AddressOfNothing(chain: Chain, s: string)
    ensures CanonicalAddressIdentity(chain, s) == "" <==> TrimSpace(s) == ""
  {
  }

  lemma PathIsNotEmpty(outer: int, inner: int)
    ensures InstructionPath(outer, inner) != ""
  {
    assert |InstructionPath(outer, inner)| >= |"outer:"|;
  }

  lemma BaseFormIdentified(chain: Chain, hash: IdHash, e: ChainEvent)
    ensures Identified(hash, BaseForm(chain, hash, e))
  {
    PathIsNotEmpty(e.outer, e.inner);
  }

  lemma BaseFormPlaced(chain: Chain, hash: IdHash, e: ChainEvent)
    ensures BasePlaced(e, BaseForm(chain, hash, e))
  {
    TrimEmpty();
    if e.metadata == map[] { assert BasePath(e.metadata) == ""; }
  }

  lemma BaseFormStems(chain: Chain, hash: IdHash, e: ChainEvent)
    ensures BaseStems(chain, hash, e, BaseForm(chain, hash, e))
  {
    FeeDeltaMeans(e.delta);
    AddressOfNothing(chain, e.asset);
    BaseFormIdentified(chain, hash, e);
    BaseFormPlaced(chain, hash, e);
  }

  lemma CollectedFrom(form: ChainEvent -> ChainEvent, es: seq<ChainEvent>, out: seq<ChainEvent>, o: ChainEvent)
    returns (e: ChainEvent)
    requires SortedValues(Collect(Mapped(form, es)), out) && o in out
    ensures e in es && form(e) == o
  {
    var xs := Mapped(form, es);
    CollectMembers(xs);
    assert Collect(xs)[o.id] == o && o in xs;
    MappedMember(form, es, o);
    e :| e in es && form(e) == o;
  }

  /** Every canonical event of an EVM chain stems from an input event, field by field. */
  lemma BaseEventsStem(chain: Chain, hash: IdHash, es: seq<ChainEvent>, out: seq<ChainEvent>, o: ChainEvent)
    returns (e: ChainEvent)
    requires SortedValues(Collect(Mapped(BaseForms(chain, hash), es)), out) && o in out
    ensures e in es && BaseStems(chain, hash, e, o)
  {
    e := CollectedFrom(BaseForms(chain, hash), es, out, o);
    assert BaseForms(chain, hash)(e) == BaseForm(chain, hash, e);
    BaseFormStems(chain, hash, e);
  }

  // ----- BTC -----

  /** Everything but addresses, path and id. */
  predicate SameCore(e: ChainEvent, o: ChainEvent) {
    && o.activity == e.activity && o.tokenType == e.tokenType && o.metadata == e.metadata
    && o.outer == e.outer && o.inner == e.inner
  }

  predicate BTCAssets(e: ChainEvent, o: ChainEvent) {
    && (TrimSpace(e.contract) == "" ==> o.contract == "BTC") && (TrimSpace(e.asset) == "" ==> o.asset == "BTC")
    && (o.contract == "BTC" || o.contract == TrimSpace(e.contract))
    && (o.asset == "BTC" || o.asset == TrimSpace(e.asset))
  }

  /** On BTC no delta changes and a missing asset is BTC itself. */
  predicate BTCStems(hash: IdHash, e: ChainEvent, o: ChainEvent) {
    && SameCore(e, o) && o.action == e.action && o.delta == e.delta
    && o.address == TrimSpace(e.address) && o.counterparty == TrimSpace(e.counterparty)
    && BTCAssets(e, o) && Identified(hash, o)
  }

  lemma BTCAssetMeans(s: string)
    ensures TrimSpace(s) == "" ==> BTCAsset(s) == "BTC"
    ensures BTCAsset(s) == "BTC" || BTCAsset(s) == TrimSpace(s)
  {
  }

  lemma BTCAddress(chain: Chain, s: string)
    requires chain == BTC
    ensures CanonicalAddressIdentity(chain, s) == TrimSpace(s)
  {
  }

  lemma BTCPathIsNotEmpty(e: ChainEvent)
    ensures BTCEventPath(e) != ""
  {
    PathIsNotEmpty(e.outer, e.inner);
    OneOrTheOther(BTCPath(e.metadata, Int32(e.outer)), InstructionPath(e.outer, e.inner));
  }

  lemma OneOrTheOther(s: string, other: string)
    requires other != ""
    ensures OrElse(s, other) != ""
  {
  }

  lemma BTCFormAtStems(chain: Chain, hash: IdHash, e: ChainEvent, path: string)
    requires chain == BTC && path != ""
    ensures BTCStems(hash, e, BTCFormAt(hash, e, path, BTCAsset(e.contract), BTCAsset(e.asset)))
  {
    BTCAddress(chain, e.address);
    BTCAddress(chain, e.counterparty);
    BTCAssetMeans(e.contract);
    BTCAssetMeans(e.asset);
  }

  lemma BTCFormStems(hash: IdHash, e: ChainEvent)
    ensures BTCStems(hash, e, BTCEventForm(hash, e))
  {
    BTCPathIsNotEmpty(e);
    BTCFormAtStems(BTC, hash, e, BTCEventPath(e));
  }

  /** Every canonical BTC event stems from an input event, field by field. */
  lemma BTCEventsStem(hash: IdHash, es: seq<ChainEvent>, out: seq<ChainEvent>, o: ChainEvent) returns (e: ChainEvent)
    requires SortedValues(Collect(Mapped(BTCForms(hash), es)), out) && o in out
    ensures e in es && BTCStems(hash, e, o)
  {
    e := CollectedFrom(BTCForms(hash), es, out, o);
    assert BTCForms(hash)(e) == BTCEventForm(hash, e);
    BTCFormStems(hash, e);
  }

  // ----- Solana -----

  /** The instruction an event belongs to: the one its metadata spells out, or its own. */
  function Instruction(e: ChainEvent): (int, int) {
    InstructionAt(e, MetadataPath(e.metadata))
  }

  function InstructionAt(e: ChainEvent, at: Option<(int, int)>): (int, int) {
    if at.Some? && e.activity != Fee then at.value else (e.outer, e.inner)
  }

  /**
   * On Solana a fee is debited and moved to the transaction level; any other event keeps its delta and its
   * instruction, except that an inner one may be raised to the outer level.
   */
  predicate SolanaStems(e: ChainEvent, o: ChainEvent) {
    && o.activity == e.activity && o.tokenType == e.tokenType && o.metadata == e.metadata
    && o.address == TrimSpace(e.address) && o.counterparty == TrimSpace(e.counterparty)
    && o.contract == TrimSpace(e.contract)
    && (o.asset == TrimSpace(e.asset) || (TrimSpace(e.asset) == "" && o.asset == o.contract))
    && (if e.activity == Fee then
          FeeOf(e.delta, o.delta) && o.outer == -1 && o.inner == -1 && o.action == "transaction_fee"
        else
          && o.delta == e.delta && o.action == e.action && o.outer == Instruction(e).0
          && (o.inner == Instruction(e).1 || (o.outer >= 0 && o.inner == -1 && Instruction(e).1 >= 0)))
  }

  lemma SolanaAddress(s: string)
    ensures CanonicalAddressIdentity(Solana, s) == TrimSpace(s)
  {
  }

  predicate Kept(e: ChainEvent, p: ChainEvent, at: (int, int)) {
    && p.activity == e.activity && p.tokenType == e.tokenType && p.metadata == e.metadata
    && p.delta == e.delta && p.action == e.action && (p.outer, p.inner) == at
    && p.address == TrimSpace(e.address) && p.counterparty == TrimSpace(e.counterparty)
    && p.contract == TrimSpace(e.contract)
    && (p.asset == TrimSpace(e.asset) || (TrimSpace(e.asset) == "" && p.asset == p.contract))
  }

  lemma AssetKept(e: ChainEvent)
    ensures
      var asset := SolanaCanon.CanonicalFields(e).asset;
      asset == TrimSpace(e.asset) || (TrimSpace(e.asset) == "" && asset == SolanaCanon.CanonicalFields(e).contract)
  {
    SolanaAddress(e.asset);
  }

  lemma FieldsKept(e: ChainEvent)
    ensures Kept(e, SolanaCanon.CanonicalFields(e), (e.outer, e.inner))
  {
    SolanaAddress(e.address);
    SolanaAddress(e.counterparty);
    SolanaAddress(e.contract);
    AssetKept(e);
  }

  lemma PlacedKept(e: ChainEvent, p: ChainEvent, at: Option<(int, int)>)
    requires Kept(e, p, (e.outer, e.inner))
    ensures Kept(e, SolanaCanon.Placed(p, at), InstructionAt(e, at))
  {
  }

  lemma PreparedKeeps(e: ChainEvent)
    ensures Kept(e, SolanaCanon.Prepare(e), Instruction(e))
  {
    FieldsKept(e);
    PlacedKept(e, SolanaCanon.CanonicalFields(e), MetadataPath(e.metadata));
  }

  lemma CandidateKeeps(owners: set<SolanaCanon.OwnerKey>, hash: SolanaCanon.PathHash, p: ChainEvent)
    ensures
      var o := SolanaCanon.CandidateOf(owners, hash, p).event;
      && o.activity == p.activity && o.tokenType == p.tokenType && o.metadata == p.metadata
      && o.address == p.address && o.counterparty == p.counterparty && o.contract == p.contract && o.asset == p.asset
      && (if p.activity == Fee then
            o.delta == FeeDelta(p.delta) && o.outer == -1 && o.inner == -1 && o.action == "transaction_fee"
          else
            && o.delta == p.delta && o.action == p.action && o.outer == p.outer
            && (o.inner == p.inner || (o.outer >= 0 && o.inner == -1 && p.inner >= 0)))
  {
  }

  /** The id is that of the event's own instruction, address, asset and activity; the path spells the instruction. */
  predicate SolanaIdentified(hash: SolanaCanon.PathHash, o: ChainEvent) {
    && o.path == InstructionPath(o.outer, o.inner)
    && o.id == hash(SolanaCanon.PathKey(Int32(o.outer), Int32(o.inner), o.address, o.asset, o.activity))
  }

  lemma CandidateIdentified(owners: set<SolanaCanon.OwnerKey>, hash: SolanaCanon.PathHash, p: ChainEvent)
    ensures SolanaIdentified(hash, SolanaCanon.CandidateOf(owners, hash, p).event)
  {
  }

  lemma CandidateStems(owners: set<SolanaCanon.OwnerKey>, hash: SolanaCanon.PathHash, e: ChainEvent)
    ensures SolanaStems(e, SolanaCanon.CandidateOf(owners, hash, SolanaCanon.Prepare(e)).event)
  {
    PreparedKeeps(e);
    CandidateKeeps(owners, hash, SolanaCanon.Prepare(e));
    FeeDeltaMeans(e.delta);
  }

  /** Every canonical Solana event stems from an input event, field by field. */
  lemma SolanaEventsStem(hash: SolanaCanon.PathHash, es: seq<ChainEvent>, out: seq<ChainEvent>, o: ChainEvent)
    returns (e: ChainEvent)
    requires SortedValues(SolanaCanon.EventsOf(SolanaCanon.CollectSolana(SolanaCanon.Met(hash, es))), out) && o in out
    ensures e in es && SolanaStems(e, o) && SolanaIdentified(hash, o)
  {
    var c, x := SolanaCanon.SurvivorFrom(hash, es, out, o);
    MappedMember(SolanaCanon.Preparing(), es, x);
    e :| e in es && SolanaCanon.Preparing()(e) == x;
    assert x == SolanaCanon.Prepare(e);
    CandidateIdentified(SolanaCanon.Owners(SolanaCanon.PreparedOf(es)), hash, x);
    CandidateStems(SolanaCanon.Owners(SolanaCanon.PreparedOf(es)), hash, e);
  }

  // ----- BTC paths -----

  /** On BTC a path in the metadata is taken as it is. */
  lemma BTCDirectPath(e: ChainEvent)
    requires TrimSpace(Lookup(e.metadata, "event_path")) != ""
    ensures BTCEventPath(e) == TrimSpace(Lookup(e.metadata, "event_path"))
  {
  }

  lemma UtxoPath(metadata: map<string, string>, outer: int, kind: string)
    requires TrimSpace(Lookup(metadata, "event_path")) == ""
    requires kind == ToLower(TrimSpace(Lookup(metadata, "utxo_path_type")))
    ensures BTCPath(metadata, outer) ==
            if (kind == "vin" || kind == "vout") && outer >= 0 then kind + ":" + FormatInt(outer) else ""
  {
  }

  lemma FirstOfTwo(s: string, other: string)
    ensures s != "" ==> OrElse(s, other) == s
    ensures s == "" ==> OrElse(s, other) == other
  {
  }

  /** Otherwise an input or output is named by its kind and index. */
  lemma BTCUtxoPath(e: ChainEvent, kind: string)
    requires TrimSpace(Lookup(e.metadata, "event_path")) == ""
    requires kind == ToLower(TrimSpace(Lookup(e.metadata, "utxo_path_type")))
    requires (kind == "vin" || kind == "vout") && Int32(e.outer) >= 0
    ensures BTCEventPath(e) == kind + ":" + FormatInt(Int32(e.outer))
  {
    UtxoPath(e.metadata, Int32(e.outer), kind);
    assert |kind + ":" + FormatInt(Int32(e.outer))| > 0;
    FirstOfTwo(BTCPath(e.metadata, Int32(e.outer)), InstructionPath(e.outer, e.inner));
  }

  /** And anything else by its instruction. */
  lemma BTCInstructionPath(e: ChainEvent, kind: string)
    requires TrimSpace(Lookup(e.metadata, "event_path")) == ""
    requires kind == ToLower(TrimSpace(Lookup(e.metadata, "utxo_path_type")))
    requires (kind != "vin" && kind != "vout") || Int32(e.outer) < 0
    ensures BTCEventPath(e) == InstructionPath(e.outer, e.inner)
  {
    UtxoPath(e.metadata, Int32(e.outer), kind);
    FirstOfTwo(BTCPath(e.metadata, Int32(e.outer)), InstructionPath(e.outer, e.inner));
  }

  // ----- Nothing is lost -----

  predicate AssetOf(asset: string, contract: string, o: ChainEvent) {
    o.asset == TrimSpace(asset) || (TrimSpace(asset) == "" && o.asset == TrimSpace(contract))
  }

  /** The output event is about the instruction, address, asset and activity of the input event. */
  predicate SolanaCovers(e: ChainEvent, o: ChainEvent) {
    && o.activity == e.activity && o.address == TrimSpace(e.address) && AssetOf(e.asset, e.contract, o)
    && Int32(o.outer) == (if e.activity == Fee then -1 else Int32(Instruction(e).0))
  }

  predicate SolanaKeyed(hash: SolanaCanon.PathHash, o: ChainEvent) {
    o.id == hash(SolanaCanon.PathKey(Int32(o.outer), Int32(o.inner), o.address, o.asset, o.activity))
  }

  predicate SamePlace(c: ChainEvent, o: ChainEvent) {
    && o.activity == c.activity && o.address == c.address && o.asset == c.asset
    && Int32(o.outer) == Int32(c.outer)
  }

  lemma SameIdSamePlace(hash: SolanaCanon.PathHash, c: ChainEvent, o: ChainEvent)
    requires SolanaCanon.Injective(hash) && SolanaKeyed(hash, c) && SolanaKeyed(hash, o) && o.id == c.id
    ensures SamePlace(c, o)
  {
    var k := SolanaCanon.PathKey(Int32(o.outer), Int32(o.inner), o.address, o.asset, o.activity);
    var l := SolanaCanon.PathKey(Int32(c.outer), Int32(c.inner), c.address, c.asset, c.activity);
    assert hash(k) == hash(l) && k == l;
  }

  lemma StemsCover(e: ChainEvent, c: ChainEvent)
    requires SolanaStems(e, c)
    ensures SolanaCovers(e, c)
  {
  }

  lemma CoversTransfers(e: ChainEvent, c: ChainEvent, o: ChainEvent)
    requires SolanaCovers(e, c) && SamePlace(c, o)
    ensures SolanaCovers(e, o)
  {
  }

  lemma CandidateKeyed(owners: set<SolanaCanon.OwnerKey>, hash: SolanaCanon.PathHash, p: ChainEvent)
    ensures SolanaKeyed(hash, SolanaCanon.CandidateOf(owners, hash, p).event)
  {
    SolanaCanon.IdIsHash(owners, hash, p);
  }

  lemma OutputKeyed(hash: SolanaCanon.PathHash, es: seq<ChainEvent>, out: seq<ChainEvent>, o: ChainEvent)
    requires SortedValues(SolanaCanon.EventsOf(SolanaCanon.CollectSolana(SolanaCanon.Met(hash, es))), out) && o in out
    ensures SolanaKeyed(hash, o)
  {
    SolanaCanon.OutputIds(hash, es, out, o);
  }

  /** The candidates made of the prepared event `p` stem from `e`. */
  ghost predicate Prepares(hash: SolanaCanon.PathHash, e: ChainEvent, p: ChainEvent) {
    forall owners :: SolanaCovers(e, SolanaCanon.CandidateOf(owners, hash, p).event)
  }

  lemma CandidateCovers(owners: set<SolanaCanon.OwnerKey>, hash: SolanaCanon.PathHash, e: ChainEvent)
    ensures SolanaCovers(e, SolanaCanon.CandidateOf(owners, hash, SolanaCanon.Prepare(e)).event)
  {
    CandidateStems(owners, hash, e);
    StemsCover(e, SolanaCanon.CandidateOf(owners, hash, SolanaCanon.Prepare(e)).event);
  }

  lemma PreparedCovers(hash: SolanaCanon.PathHash, e: ChainEvent)
    ensures Prepares(hash, e, SolanaCanon.Prepare(e))
  {
    forall owners ensures SolanaCovers(e, SolanaCanon.CandidateOf(owners, hash, SolanaCanon.Prepare(e)).event) {
      CandidateCovers(owners, hash, e);
    }
  }

  lemma PreparedMember(es: seq<ChainEvent>, e: ChainEvent)
    requires e in es
    ensures SolanaCanon.Prepare(e) in SolanaCanon.PreparedOf(es)
  {
    assert SolanaCanon.Preparing()(e) == SolanaCanon.Prepare(e);
    MappedMember(SolanaCanon.Preparing(), es, SolanaCanon.Prepare(e));
  }

  lemma PreparedFor(hash: SolanaCanon.PathHash, es: seq<ChainEvent>, e: ChainEvent) returns (p: ChainEvent)
    requires e in es
    ensures p in SolanaCanon.PreparedOf(es) && Prepares(hash, e, p)
  {
    PreparedMember(es, e);
    PreparedCovers(hash, e);
    p := SolanaCanon.Prepare(e);
  }

  lemma IdSurvives(hash: SolanaCanon.PathHash, es: seq<ChainEvent>, out: seq<ChainEvent>, p: ChainEvent)
    returns (c: ChainEvent, o: ChainEvent)
    requires p in SolanaCanon.PreparedOf(es)
    requires SortedValues(SolanaCanon.EventsOf(SolanaCanon.CollectSolana(SolanaCanon.Met(hash, es))), out)
    ensures c == SolanaCanon.CandidateOf(SolanaCanon.Owners(SolanaCanon.PreparedOf(es)), hash, p).event
    ensures SolanaKeyed(hash, c) && o in out && o.id == c.id
  {
    var owners := SolanaCanon.Owners(SolanaCanon.PreparedOf(es));
    c := SolanaCanon.CandidateOf(owners, hash, p).event;
    SolanaCanon.EveryIdSurvives(hash, es, out, p);
    o :| o in out && o.id == c.id;
    CandidateKeyed(owners, hash, p);
  }

  /** On Solana every input event's instruction, address, asset and activity are in the output. */
  lemma SolanaFieldsSurvive(hash: SolanaCanon.PathHash, es: seq<ChainEvent>, out: seq<ChainEvent>, e: ChainEvent)
    returns (o: ChainEvent)
    requires SolanaCanon.Injective(hash) && e in es
    requires SortedValues(SolanaCanon.EventsOf(SolanaCanon.CollectSolana(SolanaCanon.Met(hash, es))), out)
    ensures o in out && SolanaCovers(e, o)
  {
    var p := PreparedFor(hash, es, e);
    var c;
    c, o := IdSurvives(hash, es, out, p);
    OutputKeyed(hash, es, out, o);
    SameIdSamePlace(hash, c, o);
    CoversTransfers(e, c, o);
  }

  ghost predicate InjectiveIds(hash: IdHash) {
    forall a, b | hash(a) == hash(b) :: a == b
  }

  lemma SameIdSameKey(hash: IdHash, f: ChainEvent, o: ChainEvent)
    requires InjectiveIds(hash) && Identified(hash, f) && Identified(hash, o) && o.id == f.id
    ensures o.path == f.path && o.address == f.address && o.asset == f.asset && o.activity == f.activity
  {
    var k, l := IdKey(o.path, o.address, o.asset, o.activity), IdKey(f.path, f.address, f.asset, f.activity);
    assert hash(k) == hash(l) && k == l;
  }

  lemma FormSurvives(form: ChainEvent -> ChainEvent, es: seq<ChainEvent>, out: seq<ChainEvent>, e: ChainEvent)
    returns (o: ChainEvent)
    requires e in es && SortedValues(Collect(Mapped(form, es)), out)
    ensures o in out && o.id == form(e).id
  {
    var xs := Mapped(form, es);
    MappedMember(form, es, form(e));
    CollectMembers(xs);
    o := Collect(xs)[form(e).id];
  }

  lemma OutputIdentified(chain: Chain, hash: IdHash, es: seq<ChainEvent>, out: seq<ChainEvent>, o: ChainEvent)
    requires SortedValues(Collect(Mapped(BaseForms(chain, hash), es)), out) && o in out
    ensures Identified(hash, o)
  {
    var e := BaseEventsStem(chain, hash, es, out, o);
  }

  lemma BaseFormAddress(chain: Chain, hash: IdHash, e: ChainEvent)
    ensures BaseForm(chain, hash, e).activity == e.activity
    ensures BaseForm(chain, hash, e).address == CanonicalAddressIdentity(chain, e.address)
  {
  }

  /** The output event has the path, address, asset and activity of the input event's canonical form. */
  predicate BaseCovers(chain: Chain, hash: IdHash, e: ChainEvent, o: ChainEvent) {
    var f := BaseForm(chain, hash, e);
    o.path == f.path && o.address == f.address && o.asset == f.asset && o.activity == f.activity
  }

  /** On EVM chains every input event's path, address, asset and activity are in the output. */
  lemma BaseFieldsSurvive(chain: Chain, hash: IdHash, es: seq<ChainEvent>, out: seq<ChainEvent>, e: ChainEvent)
    returns (o: ChainEvent)
    requires InjectiveIds(hash) && e in es && SortedValues(Collect(Mapped(BaseForms(chain, hash), es)), out)
    ensures o in out && BaseCovers(chain, hash, e, o)
    ensures o.activity == e.activity && o.address == CanonicalAddressIdentity(chain, e.address)
  {
    o := FormSurvives(BaseForms(chain, hash), es, out, e);
    var f := BaseForm(chain, hash, e);
    assert BaseForms(chain, hash)(e) == f;
    OutputIdentified(chain, hash, es, out, o);
    BaseFormIdentified(chain, hash, e);
    SameIdSameKey(hash, f, o);
    BaseFormAddress(chain, hash, e);
  }
}
