/** EVM and BTC event canonicalization: canonical fields, an id from the canonical identity, one event per id. */
module EventCanon {
  import opened Sums
  import opened Ledger
  import opened Text
  import opened Identity
  import opened InstructionPaths
  import opened KeepBest

  /** A decoded balance event. The finality state, equal for all events of a call, is not part of it. */
  datatype ChainEvent = ChainEvent(
    activity: Activity, action: string, address: Address, counterparty: Address, contract: string, asset: string,
    tokenType: TokenType, delta: string, outer: int, inner: int, metadata: map<string, string>, path: string,
    id: string)

  /** The parts of a canonical event id that differ between the events of a transaction. */
  datatype IdKey = IdKey(path: string, actor: Address, asset: string, activity: Activity)

  /** The hash that makes event ids, for a fixed chain, network and transaction. */
  type IdHash = IdKey -> string

  function IdOf(e: ChainEvent): string {
    e.id
  }

  function Unsigned(s: string): string {
    if s != "" && (s[0] == '+' || s[0] == '-') then s[1..] else s
  }

  /** canonicalFeeDelta: fees leave the account. */
  function FeeDelta(amount: string): string {
    FeeText(Unsigned(TrimSpace(amount)))
  }

  function FeeText(body: string): string {
    if body == "" || body == "0" then "-0"
    else if AllDigits(body) then "-" + body
    else match ParseDecimal(body)
      case None => "-0"
      case Some(n) => if n == 0 then "-0" else "-" + FormatInt(n)
  }

  /** resolveBaseMetadataEventPath. */
  function BasePath(metadata: map<string, string>): string {
    if Lookup(metadata, "event_path") != "" then Lookup(metadata, "event_path")
    else if Lookup(metadata, "log_path") != "" then Lookup(metadata, "log_path")
    else if Lookup(metadata, "log_index") != "" then "log:" + Lookup(metadata, "log_index")
    else if Lookup(metadata, "base_log_index") != "" then "log:" + Lookup(metadata, "base_log_index")
    else Lookup(metadata, "base_event_path")
  }

  /** resolveBTCEventPathFromMetadata. */
  function BTCPath(metadata: map<string, string>, outer: int): string {
    var direct := TrimSpace(Lookup(metadata, "event_path"));
    var kind := ToLower(TrimSpace(Lookup(metadata, "utxo_path_type")));
    if direct != "" then direct
    else if (kind == "vin" || kind == "vout") && outer >= 0 then kind + ":" + FormatInt(outer)
    else ""
  }

  function OrElse(s: string, other: string): string {
    if s == "" then other else s
  }

  function WithId(e: ChainEvent, hash: IdHash): ChainEvent {
    e.(id := hash(IdKey(e.path, e.address, e.asset, e.activity)))
  }

  /** The body of the loop of canonicalizeBaseBalanceEvents up to the id. */
  function BaseForm(chain: Chain, hash: IdHash, e: ChainEvent): ChainEvent {
    var action := if e.activity == FeeExecutionL2 then "FEE_EXECUTION_L2"
                  else if e.activity == FeeDataL1 then "FEE_DATA_L1" else e.action;
    var isFee := e.activity == FeeExecutionL2 || e.activity == FeeDataL1 || e.activity == Fee;
    var path := TrimSpace(OrElse(BasePath(e.metadata), e.path));
    var contract := CanonicalAddressIdentity(chain, e.contract);
    WithId(
      e.(action := action,
         delta := if isFee then FeeDelta(e.delta) else e.delta,
         path := OrElse(path, InstructionPath(e.outer, e.inner)),
         address := CanonicalAddressIdentity(chain, e.address),
         counterparty := CanonicalAddressIdentity(chain, e.counterparty),
         contract := contract,
         asset := OrElse(CanonicalAddressIdentity(chain, e.asset), contract)),
      hash)
  }

  function BTCAsset(value: string): string {
    var trimmed := TrimSpace(value);
    if trimmed == "" || ToLower(trimmed) == "btc" then "BTC" else trimmed
  }

  function BTCEventPath(e: ChainEvent): string {
    OrElse(BTCPath(e.metadata, Int32(e.outer)), InstructionPath(e.outer, e.inner))
  }

  function BTCFormAt(hash: IdHash, e: ChainEvent, path: string, contract: string, asset: string): ChainEvent {
    WithId(
      e.(path := path,
         address := CanonicalAddressIdentity(BTC, e.address),
         counterparty := CanonicalAddressIdentity(BTC, e.counterparty),
         contract := contract,
         asset := asset),
      hash)
  }

  /** The body of the loop of canonicalizeBTCBalanceEvents up to the id. */
  function BTCEventForm(hash: IdHash, e: ChainEvent): ChainEvent {
    BTCFormAt(hash, e, BTCEventPath(e), BTCAsset(e.contract), BTCAsset(e.asset))
  }

  // ----- The replacement rule -----

  predicate Parses(delta: string) {
    ParseDecimal(TrimSpace(delta)).Some?
  }

  /** compareCanonicalDeltas, as "right is smaller": by value when both parse, otherwise as text. */
  predicate SmallerDelta(left: string, right: string) {
    if Parses(left) && Parses(right) then ParseDecimal(TrimSpace(right)).value < ParseDecimal(TrimSpace(left)).value
    else Less(TrimSpace(right), TrimSpace(left))
  }

  /** shouldReplaceCanonicalBaseEvent, and its BTC twin. */
  predicate Replaces(existing: ChainEvent, incoming: ChainEvent) {
    if existing.action != incoming.action then Less(incoming.action, existing.action)
    else if existing.contract != incoming.contract then Less(incoming.contract, existing.contract)
    else if existing.counterparty != incoming.counterparty then Less(incoming.counterparty, existing.counterparty)
    else SmallerDelta(existing.delta, incoming.delta)
  }

  /** Per event id, either every delta parses or none does. */
  ghost predicate Uniform(xs: seq<ChainEvent>) {
    forall x, y | x in xs && y in xs && x.id == y.id :: Parses(x.delta) == Parses(y.delta)
  }

  lemma SmallerDeltaOrder(a: string, b: string, c: string)
    requires Parses(a) == Parses(b) == Parses(c)
    ensures SmallerDelta(a, b) ==> !SmallerDelta(b, a)
    ensures SmallerDelta(a, b) && SmallerDelta(b, c) ==> SmallerDelta(a, c)
  {
    Strict(TrimSpace(a), TrimSpace(b), TrimSpace(c));
  }

  lemma Strict(a: string, b: string, c: string)
    ensures Less(a, b) ==> !Less(b, a)
    ensures Less(b, a) && Less(c, b) ==> Less(c, a)
    ensures a == b || Less(a, b) || Less(b, a)
  {
    LessTotal(a, b);
    if Less(a, b) && Less(b, a) {
      LessTransitive(a, b, a);
      LessIrreflexive(a);
    }
    if Less(b, a) && Less(c, b) { LessTransitive(c, b, a); }
  }

  lemma ReplacesOrder(x: ChainEvent, y: ChainEvent, z: ChainEvent)
    requires Parses(x.delta) == Parses(y.delta) == Parses(z.delta)
    ensures Replaces(x, y) ==> !Replaces(y, x)
    ensures Replaces(x, y) && Replaces(y, z) ==> Replaces(x, z)
  {
    Strict(x.action, y.action, z.action);
    Strict(x.contract, y.contract, z.contract);
    Strict(x.counterparty, y.counterparty, z.counterparty);
    SmallerDeltaOrder(x.delta, y.delta, z.delta);
  }

  lemma ReplacesIsOrdered(xs: seq<ChainEvent>)
    requires Uniform(xs)
    ensures Ordered(xs, IdOf, Replaces)
  {
    forall x, y | x in xs && y in xs && IdOf(x) == IdOf(y) && Replaces(x, y) ensures !Replaces(y, x) {
      ReplacesOrder(x, y, y);
    }
    forall x, y, z | x in xs && y in xs && z in xs && IdOf(x) == IdOf(y) == IdOf(z) && Replaces(x, y) && Replaces(y, z)
      ensures Replaces(x, z)
    {
      ReplacesOrder(x, y, z);
    }
  }

  // ----- Canonical lists -----

  predicate ById(a: ChainEvent, b: ChainEvent) {
    Less(a.id, b.id)
  }

  lemma ByIdIsStrict()
    ensures StrictOrder(ById)
  {
    forall x ensures !ById(x, x) { LessIrreflexive(x.id); }
    forall x, y, z | ById(x, y) && ById(y, z) ensures ById(x, z) { LessTransitive(x.id, y.id, z.id); }
  }

  ghost predicate SortedValues(m: map<string, ChainEvent>, out: seq<ChainEvent>) {
    Sorted(out, ById) && forall x :: x in out <==> x.id in m && m[x.id] == x
  }

  ghost predicate Canonical(xs: seq<ChainEvent>, out: seq<ChainEvent>) {
    exists m :: Keeps(m, xs, IdOf, Replaces) && SortedValues(m, out)
  }

  function ValuesOf(m: map<string, ChainEvent>): set<ChainEvent> {
    set k | k in m :: m[k]
  }

  /** The map is keyed by the ids of its events. */
  ghost predicate Keyed(m: map<string, ChainEvent>) {
    forall k | k in m :: m[k].id == k
  }

  method SortById(m: map<string, ChainEvent>) returns (out: seq<ChainEvent>)
    requires Keyed(m)
    ensures SortedValues(m, out)
  {
    ByIdIsStrict();
    forall x, y | x in ValuesOf(m) && y in ValuesOf(m) ensures x == y || ById(x, y) || ById(y, x) {
      LessTotal(x.id, y.id);
    }
    out := SortSet(ValuesOf(m), ById);
  }

  /** The deduplicating loop as a fold: the first event of an id is kept until one replaces it. */
  function Collect(xs: seq<ChainEvent>): (m: map<string, ChainEvent>)
    ensures Keyed(m)
  {
    if xs == [] then map[]
    else
      var m, x := Collect(xs[..|xs| - 1]), xs[|xs| - 1];
      if x.id !in m || Replaces(m[x.id], x) then m[x.id := x] else m
  }

  lemma {:induction false} CollectKeeps(xs: seq<ChainEvent>)
    requires Uniform(xs)
    ensures Keeps(Collect(xs), xs, IdOf, Replaces)
    decreases |xs|
  {
    if xs != [] {
      var init, x := xs[..|xs| - 1], xs[|xs| - 1];
      assert xs == init + [x];
      CollectKeeps(init);
      ReplacesIsOrdered(xs);
      KeepsExtend(Collect(init), init, x, IdOf, Replaces);
    }
  }

  /** Whenever each id's deltas are uniform, the sorted result of the loop is canonical. */
  lemma CollectIsCanonical(xs: seq<ChainEvent>, out: seq<ChainEvent>)
    requires Uniform(xs) && SortedValues(Collect(xs), out)
    ensures Canonical(xs, out)
  {
    CollectKeeps(xs);
  }

  /** The loop of both canonicalizers, and the sort by id. */
  method Canonicalize(form: ChainEvent -> ChainEvent, es: seq<ChainEvent>) returns (out: seq<ChainEvent>)
    ensures SortedValues(Collect(Mapped(form, es)), out)
    ensures Uniform(Mapped(form, es)) ==> Canonical(Mapped(form, es), out)
  {
    var eventsById: map<string, ChainEvent> := map[];
    for i := 0 to |es|
      invariant eventsById == Collect(Mapped(form, es[..i]))
    {
      var be := form(es[i]);
      MappedExtend(form, es, i);
      assert Mapped(form, es[..i + 1])[..i] == Mapped(form, es[..i]);
      if be.id !in eventsById || Replaces(eventsById[be.id], be) { eventsById := eventsById[be.id := be]; }
    }
    assert es[..|es|] == es;
    out := SortById(eventsById);
    if Uniform(Mapped(form, es)) { CollectIsCanonical(Mapped(form, es), out); }
  }

  function BaseForms(chain: Chain, hash: IdHash): ChainEvent -> ChainEvent {
    e => BaseForm(chain, hash, e)
  }

  function BTCForms(hash: IdHash): ChainEvent -> ChainEvent {
    e => BTCEventForm(hash, e)
  }

  /** canonicalizeBaseBalanceEvents. */
  method CanonicalizeBaseEvents(chain: Chain, hash: IdHash, es: seq<ChainEvent>) returns (out: seq<ChainEvent>)
    ensures SortedValues(Collect(Mapped(BaseForms(chain, hash), es)), out)
    ensures Uniform(Mapped(BaseForms(chain, hash), es)) ==> Canonical(Mapped(BaseForms(chain, hash), es), out)
  {
    out := Canonicalize(BaseForms(chain, hash), es);
  }

  /** canonicalizeBTCBalanceEvents. */
  method CanonicalizeBTCEvents(hash: IdHash, es: seq<ChainEvent>) returns (out: seq<ChainEvent>)
    ensures SortedValues(Collect(Mapped(BTCForms(hash), es)), out)
    ensures Uniform(Mapped(BTCForms(hash), es)) ==> Canonical(Mapped(BTCForms(hash), es), out)
  {
    out := Canonicalize(BTCForms(hash), es);
  }

  // ----- Order independence -----

  /** The same id, action, contract, counterparty and delta. */
  predicate SameView(x: ChainEvent, y: ChainEvent) {
    && x.id == y.id && x.action == y.action && x.contract == y.contract && x.counterparty == y.counterparty
    && Parses(x.delta) == Parses(y.delta)
    && (if Parses(x.delta) then ParseDecimal(TrimSpace(x.delta)) == ParseDecimal(TrimSpace(y.delta))
        else TrimSpace(x.delta) == TrimSpace(y.delta))
  }

  lemma UnreplacedIsSame(x: ChainEvent, y: ChainEvent)
    requires x.id == y.id && Parses(x.delta) == Parses(y.delta) && !Replaces(x, y) && !Replaces(y, x)
    ensures SameView(x, y)
  {
    Strict(x.action, y.action, y.action);
    Strict(x.contract, y.contract, y.contract);
    Strict(x.counterparty, y.counterparty, y.counterparty);
    Strict(TrimSpace(x.delta), TrimSpace(y.delta), "");
  }

  ghost predicate SameViews(a: seq<ChainEvent>, b: seq<ChainEvent>) {
    |a| == |b| && forall i | 0 <= i < |a| :: SameView(a[i], b[i])
  }

  /** One event per id, none invented, every id represented by an event nothing replaces. */
  lemma CanonicalMeans(xs: seq<ChainEvent>, out: seq<ChainEvent>)
    requires Canonical(xs, out)
    ensures Sorted(out, ById)
    ensures forall x, y | x in out && y in out && x.id == y.id :: x == y
    ensures forall x | x in out :: x in xs
    ensures forall x | x in xs :: exists y | y in out :: y.id == x.id && !Replaces(y, x)
  {
    var m :| Keeps(m, xs, IdOf, Replaces) && SortedValues(m, out);
    forall x | x in xs ensures exists y | y in out :: y.id == x.id && !Replaces(y, x) {
      assert IdOf(x) in m && IdOf(m[x.id]) == x.id;
      assert m[x.id] in out;
    }
  }

  function Ids(s: seq<ChainEvent>): (r: seq<string>)
    ensures |r| == |s| && forall i | 0 <= i < |s| :: r[i] == s[i].id
  {
    if s == [] then [] else [s[0].id] + Ids(s[1..])
  }

  lemma SameIds(m1: map<string, ChainEvent>, out1: seq<ChainEvent>, m2: map<string, ChainEvent>, out2: seq<ChainEvent>)
    requires SortedValues(m1, out1) && SortedValues(m2, out2) && Keyed(m1) && Keyed(m2) && m1.Keys == m2.Keys
    ensures Ids(out1) == Ids(out2)
  {
    IdsOf(m1, out1);
    IdsOf(m2, out2);
    LessIsStrict();
    SortedUnique(Ids(out1), Ids(out2), Less);
  }

  lemma LessIsStrict()
    ensures StrictOrder(Less)
  {
    forall x ensures !Less(x, x) { LessIrreflexive(x); }
    forall x, y, z | Less(x, y) && Less(y, z) ensures Less(x, z) { LessTransitive(x, y, z); }
  }

  lemma IdsOf(m: map<string, ChainEvent>, out: seq<ChainEvent>)
    requires SortedValues(m, out) && Keyed(m)
    ensures Sorted(Ids(out), Less) && forall k :: k in Ids(out) <==> k in m
  {
    forall i, j | 0 <= i < j < |out| ensures Less(Ids(out)[i], Ids(out)[j]) { assert ById(out[i], out[j]); }
    forall k ensures k in Ids(out) <==> k in m {
      if k in Ids(out) {
        var i :| 0 <= i < |out| && Ids(out)[i] == k;
        assert out[i] in out;
      }
      if k in m {
        assert m[k] in out;
        var i :| 0 <= i < |out| && out[i] == m[k];
        assert Ids(out)[i] == k;
      }
    }
  }

  lemma KeepsIsKeyed(m: map<string, ChainEvent>, xs: seq<ChainEvent>)
    requires Keeps(m, xs, IdOf, Replaces)
    ensures Keyed(m)
  {
    assert forall k | k in m :: IdOf(m[k]) == k;
  }

  /**
   * The order in which decoded events arrive makes no difference to a canonical list: the same ids in
   * the same order, and per id the same action, contract, counterparty and delta value.
   */
  lemma OrderInvariant(xs1: seq<ChainEvent>, out1: seq<ChainEvent>, xs2: seq<ChainEvent>, out2: seq<ChainEvent>)
    requires Canonical(xs1, out1) && Canonical(xs2, out2) && Uniform(xs1)
    requires forall x :: x in xs1 <==> x in xs2
    ensures SameViews(out1, out2)
  {
    var m1 :| Keeps(m1, xs1, IdOf, Replaces) && SortedValues(m1, out1);
    var m2 :| Keeps(m2, xs2, IdOf, Replaces) && SortedValues(m2, out2);
    KeptKeys(m1, xs1, m2, xs2, IdOf, Replaces);
    KeepsIsKeyed(m1, xs1);
    KeepsIsKeyed(m2, xs2);
    SameIds(m1, out1, m2, out2);
    forall i | 0 <= i < |out1| ensures SameView(out1[i], out2[i]) {
      var k := Ids(out1)[i];
      assert k == Ids(out2)[i] && out1[i] in out1 && out2[i] in out2;
      KeptAlike(m1, xs1, m2, xs2, IdOf, Replaces, k);
      assert m1[k] == out1[i] && m2[k] == out2[i];
      UnreplacedIsSame(out1[i], out2[i]);
    }
  }

  /** Lists with the same events have forms with the same members. */
  lemma FormsSameMembers(form: ChainEvent -> ChainEvent, es1: seq<ChainEvent>, es2: seq<ChainEvent>)
    requires forall e :: e in es1 <==> e in es2
    ensures forall x :: x in Mapped(form, es1) <==> x in Mapped(form, es2)
  {
    forall x ensures x in Mapped(form, es1) <==> x in Mapped(form, es2) {
      MappedMember(form, es1, x);
      MappedMember(form, es2, x);
    }
  }

  /** On every EVM chain and on BTC, canonicalization does not depend on the order of the decoded events. */
  lemma CanonicalizationIsOrderInvariant(
    form: ChainEvent -> ChainEvent, es1: seq<ChainEvent>, out1: seq<ChainEvent>, es2: seq<ChainEvent>,
    out2: seq<ChainEvent>)
    requires forall e :: e in es1 <==> e in es2
    requires Uniform(Mapped(form, es1)) && Canonical(Mapped(form, es1), out1) && Canonical(Mapped(form, es2), out2)
    ensures SameViews(out1, out2)
  {
    FormsSameMembers(form, es1, es2);
    OrderInvariant(Mapped(form, es1), out1, Mapped(form, es2), out2);
  }

  // ----- Exactly when the order does not matter -----

  lemma SameViewIsNoReplacement(x: ChainEvent, y: ChainEvent)
    requires SameView(x, y)
    ensures !Replaces(x, y) && !Replaces(y, x)
  {
    LessIrreflexive(TrimSpace(x.delta));
  }

  /** Two events of one id replace each other one way, or look the same; never both ways. */
  lemma ReplacesDecides(x: ChainEvent, y: ChainEvent)
    requires x.id == y.id
    ensures Replaces(x, y) ==> !Replaces(y, x)
    ensures SameView(x, y) || Replaces(x, y) || Replaces(y, x)
  {
    Strict(x.action, y.action, y.action);
    Strict(x.contract, y.contract, y.contract);
    Strict(x.counterparty, y.counterparty, y.counterparty);
    Strict(TrimSpace(x.delta), TrimSpace(y.delta), "");
  }

  /** Some view of the id has every event with that view replace every event of the id without it. */
  ghost predicate Dominated(xs: seq<ChainEvent>, id: string, v: ChainEvent) {
    && v in xs && v.id == id
    && forall w, x | w in xs && x in xs && x.id == id && SameView(w, v) && !SameView(x, v) :: Replaces(x, w)
  }

  ghost predicate HasDominantView(xs: seq<ChainEvent>, id: string) {
    exists v :: Dominated(xs, id, v)
  }

  lemma {:induction false} CollectMembers(xs: seq<ChainEvent>)
    ensures forall k | k in Collect(xs) :: Collect(xs)[k] in xs && Collect(xs)[k].id == k
    ensures forall x | x in xs :: x.id in Collect(xs)
    decreases |xs|
  {
    if xs != [] {
      CollectMembers(xs[..|xs| - 1]);
      assert forall x :: x in xs <==> x in xs[..|xs| - 1] || x == xs[|xs| - 1];
    }
  }

  lemma CollectExtend(xs: seq<ChainEvent>, x: ChainEvent)
    ensures
      var m := Collect(xs);
      Collect(xs + [x]) == if x.id !in m || Replaces(m[x.id], x) then m[x.id := x] else m
  {
    assert (xs + [x])[..|xs|] == xs;
  }

  lemma DominantStep(xs: seq<ChainEvent>, id: string, v: ChainEvent, kept: ChainEvent, last: ChainEvent)
    requires Dominated(xs, id, v) && kept in xs && last in xs && kept.id == last.id == id
    requires SameView(kept, v) || SameView(last, v)
    ensures SameView(if Replaces(kept, last) then last else kept, v)
  {
    ReplacesDecides(kept, last);
  }

  lemma DominantExtend(xs: seq<ChainEvent>, init: seq<ChainEvent>, last: ChainEvent, id: string, v: ChainEvent)
    requires Dominated(xs, id, v) && last in xs && forall y | y in init :: y in xs
    requires SameView(last, v) || (id in Collect(init) && SameView(Collect(init)[id], v))
    ensures id in Collect(init + [last]) && SameView(Collect(init + [last])[id], v)
  {
    CollectExtend(init, last);
    if id in Collect(init) && last.id == id {
      CollectMembers(init);
      DominantStep(xs, id, v, Collect(init)[id], last);
    }
  }

  /** Once met, a dominant view is kept, in any order of its rivals. */
  lemma {:induction false} DominantIsKept(
    xs: seq<ChainEvent>, ys: seq<ChainEvent>, id: string, v: ChainEvent, w: ChainEvent)
    requires Dominated(xs, id, v) && (forall y | y in ys :: y in xs) && w in ys && SameView(w, v)
    ensures id in Collect(ys) && SameView(Collect(ys)[id], v)
    decreases |ys|
  {
    var init, last := ys[..|ys| - 1], ys[|ys| - 1];
    assert ys == init + [last] && last in ys;
    if w in init { DominantIsKept(xs, init, id, v, w); }
    DominantExtend(xs, init, last, id, v);
  }

  lemma CollectOne(w: ChainEvent)
    ensures Collect([w]) == map[w.id := w]
  {
    assert [w][..0] == [] && Collect([]) == map[];
  }

  /** An event that meets `alike` has the id of `w` and does not replace it. */
  ghost predicate Idle(alike: ChainEvent -> bool, w: ChainEvent, x: ChainEvent) {
    alike(x) ==> x.id == w.id && !Replaces(w, x)
  }

  ghost predicate AllIdle(alike: ChainEvent -> bool, w: ChainEvent) {
    forall x :: Idle(alike, w, x)
  }

  lemma AlikeExtends(alike: ChainEvent -> bool, xs: seq<ChainEvent>, w: ChainEvent, last: ChainEvent)
    requires Collect(xs) == map[w.id := w] && AllIdle(alike, w) && alike(last)
    ensures Collect(xs + [last]) == map[w.id := w]
  {
    CollectExtend(xs, last);
    assert Idle(alike, w, last);
  }

  lemma {:induction false} IdleKeep(alike: ChainEvent -> bool, w: ChainEvent, xs: seq<ChainEvent>, n: nat)
    requires AllIdle(alike, w) && 0 < n <= |xs| && xs[0] == w && forall i | 0 < i < |xs| :: alike(xs[i])
    ensures Collect(xs[..n]) == map[w.id := w]
    decreases n
  {
    if n == 1 {
      CollectOne(w);
      assert xs[..1] == [w];
    } else {
      IdleKeep(alike, w, xs, n - 1);
      AlikeExtends(alike, xs[..n - 1], w, xs[n - 1]);
      assert xs[..n] == xs[..n - 1] + [xs[n - 1]];
    }
  }

  lemma LooksIdle(w: ChainEvent)
    ensures AllIdle(Looks(w), w)
  {
    forall x ensures Idle(Looks(w), w, x) {
      if SameView(x, w) { SameViewIsNoReplacement(x, w); }
    }
  }

  /** Events that look like the kept one do not move it. */
  lemma AlikesKeep(w: ChainEvent, alikes: seq<ChainEvent>)
    requires forall a | a in alikes :: SameView(a, w)
    ensures Collect([w] + alikes) == map[w.id := w]
  {
    var xs := [w] + alikes;
    LooksIdle(w);
    forall i | 0 < i < |xs| ensures Looks(w)(xs[i]) { assert xs[i] == alikes[i - 1]; }
    IdleKeep(Looks(w), w, xs, |xs|);
    assert xs[..|xs|] == xs;
  }

  /** Once an event without the view is kept, events without the view keep it so. */
  lemma {:induction false} StaysOutside(before: seq<ChainEvent>, rest: seq<ChainEvent>, id: string, v: ChainEvent)
    requires id in Collect(before) && !SameView(Collect(before)[id], v)
    requires forall x | x in rest && x.id == id :: !SameView(x, v)
    ensures id in Collect(before + rest) && !SameView(Collect(before + rest)[id], v)
    decreases |rest|
  {
    if rest == [] {
      assert before + rest == before;
    } else {
      var init, last := rest[..|rest| - 1], rest[|rest| - 1];
      assert last in rest && before + rest == (before + init) + [last];
      StaysOutside(before, init, id, v);
      CollectExtend(before + init, last);
    }
  }

  function Looks(v: ChainEvent): ChainEvent -> bool {
    x => SameView(x, v)
  }

  function Not(keep: ChainEvent -> bool): ChainEvent -> bool {
    x => !keep(x)
  }

  lemma {:induction false} WherePartition(s: seq<ChainEvent>, keep: ChainEvent -> bool)
    ensures multiset(Where(s, keep)) + multiset(Where(s, Not(keep))) == multiset(s)
    decreases |s|
  {
    if s != [] {
      WherePartition(s[..|s| - 1], keep);
      assert s == s[..|s| - 1] + [s[|s| - 1]];
    }
  }

  lemma WithoutOne(xs: seq<ChainEvent>, w: ChainEvent) returns (rest: seq<ChainEvent>)
    requires w in xs
    ensures multiset(xs) == multiset(rest) + multiset{w}
  {
    var i :| 0 <= i < |xs| && xs[i] == w;
    rest := xs[..i] + xs[i + 1..];
    assert xs == xs[..i] + [w] + xs[i + 1..];
  }

  /** A list without two of its events. */
  lemma WithoutTwo(xs: seq<ChainEvent>, w: ChainEvent, x: ChainEvent) returns (rest: seq<ChainEvent>)
    requires w in xs && x in xs && w != x
    ensures multiset([w] + [x] + rest) == multiset(xs)
  {
    var less := WithoutOne(xs, w);
    assert x in multiset(xs) && x in multiset(less);
    rest := WithoutOne(less, x);
  }

  /** If an event with the kept view loses to one without it, some order keeps another view. */
  lemma OtherOrder(xs: seq<ChainEvent>, id: string, v: ChainEvent, w: ChainEvent, x: ChainEvent)
    returns (ys: seq<ChainEvent>)
    requires w in xs && x in xs && w.id == x.id == v.id == id && SameView(w, v) && !SameView(x, v) && Replaces(w, x)
    ensures multiset(ys) == multiset(xs) && id in Collect(ys) && !SameView(Collect(ys)[id], v)
  {
    var rest := WithoutTwo(xs, w, x);
    var alikes, others := Where(rest, Looks(v)), Where(rest, Not(Looks(v)));
    WherePartition(rest, Looks(v));
    forall a | a in alikes ensures SameView(a, w) { WhereMembers(rest, Looks(v), a); }
    forall o | o in others ensures !SameView(o, v) { WhereMembers(rest, Not(Looks(v)), o); }
    AlikesKeep(w, alikes);
    CollectExtend([w] + alikes, x);
    ys := ([w] + alikes + [x]) + others;
    StaysOutside([w] + alikes + [x], others, id, v);
    Regroup(w, x, alikes, others, rest);
  }

  lemma Regroup(w: ChainEvent, x: ChainEvent, alikes: seq<ChainEvent>, others: seq<ChainEvent>, rest: seq<ChainEvent>)
    requires multiset(alikes) + multiset(others) == multiset(rest)
    ensures multiset(([w] + alikes + [x]) + others) == multiset([w] + [x] + rest)
  {
  }

  /** In every order of the events, the one kept for the id looks the same. */
  ghost predicate OrderFree(xs: seq<ChainEvent>, id: string)
    requires id in Collect(xs)
  {
    forall ys | multiset(ys) == multiset(xs) :: id in Collect(ys) && SameView(Collect(ys)[id], Collect(xs)[id])
  }

  lemma SameMembers(xs: seq<ChainEvent>, ys: seq<ChainEvent>)
    requires multiset(xs) == multiset(ys)
    ensures forall x :: x in xs <==> x in ys
  {
    assert forall x :: (x in xs <==> x in multiset(xs)) && (x in ys <==> x in multiset(ys));
  }

  lemma DominatedIsOrderFree(xs: seq<ChainEvent>, id: string, v: ChainEvent)
    requires id in Collect(xs) && Dominated(xs, id, v)
    ensures OrderFree(xs, id)
  {
    DominantIsKept(xs, xs, id, v, v);
    forall ys | multiset(ys) == multiset(xs) ensures id in Collect(ys) && SameView(Collect(ys)[id], Collect(xs)[id]) {
      SameMembers(xs, ys);
      DominantIsKept(xs, ys, id, v, v);
    }
  }

  /**
   * Exactly when canonicalization ignores the order of the events of an id, whatever their deltas: some
   * view of the id dominates, that is, every event with it replaces every event without it.
   */
  lemma OrderFreeExactly(xs: seq<ChainEvent>, id: string)
    requires id in Collect(xs)
    ensures OrderFree(xs, id) <==> HasDominantView(xs, id)
  {
    CollectMembers(xs);
    if v :| Dominated(xs, id, v) { DominatedIsOrderFree(xs, id, v); }
    if !HasDominantView(xs, id) {
      var v := Collect(xs)[id];
      assert !Dominated(xs, id, v);
      var w, x :| w in xs && x in xs && x.id == id && SameView(w, v) && !SameView(x, v) && !Replaces(x, w);
      ReplacesDecides(x, w);
      SameViewChains(x, w, v);
      var ys := OtherOrder(xs, id, v, w, x);
      assert !OrderFree(xs, id);
    }
  }

  lemma SameViewChains(x: ChainEvent, w: ChainEvent, v: ChainEvent)
    requires SameView(w, v)
    ensures SameView(x, w) ==> SameView(x, v)
  {
  }

  /** Deltas that all parse, or all fail to, always have a dominant view. */
  lemma UniformHasDominantView(xs: seq<ChainEvent>, id: string)
    requires Uniform(xs) && id in Collect(xs)
    ensures HasDominantView(xs, id)
  {
    CollectMembers(xs);
    CollectKeeps(xs);
    var v := Collect(xs)[id];
    forall w, x | w in xs && x in xs && x.id == id && SameView(w, v) && !SameView(x, v) ensures Replaces(x, w) {
      assert IdOf(x) == id && !Replaces(v, x);
      ReplacesDecides(v, x);
      ReplacesAlike(x, v, w);
    }
    assert Dominated(xs, id, v);
  }

  lemma ReplacesAlike(x: ChainEvent, v: ChainEvent, w: ChainEvent)
    requires x.id == v.id && Parses(x.delta) == Parses(v.delta) && SameView(w, v) && Replaces(x, v)
    ensures Replaces(x, w)
  {
  }

  /** Whatever the order of the events, the output lists look the same. */
  ghost predicate OutputOrderFree(xs: seq<ChainEvent>) {
    forall ys, out1, out2 |
      multiset(ys) == multiset(xs) && SortedValues(Collect(xs), out1) && SortedValues(Collect(ys), out2) ::
      SameViews(out1, out2)
  }

  lemma SameCollectedIds(xs: seq<ChainEvent>, ys: seq<ChainEvent>)
    requires multiset(xs) == multiset(ys)
    ensures Collect(xs).Keys == Collect(ys).Keys
  {
    SameMembers(xs, ys);
    CollectMembers(xs);
    CollectMembers(ys);
  }

  lemma DominantViewsFixOutput(xs: seq<ChainEvent>, ys: seq<ChainEvent>, out1: seq<ChainEvent>, out2: seq<ChainEvent>)
    requires forall id | id in Collect(xs) :: HasDominantView(xs, id)
    requires multiset(ys) == multiset(xs) && SortedValues(Collect(xs), out1) && SortedValues(Collect(ys), out2)
    ensures SameViews(out1, out2)
  {
    SameCollectedIds(xs, ys);
    SameIds(Collect(xs), out1, Collect(ys), out2);
    assert |out1| == |Ids(out1)| == |Ids(out2)| == |out2|;
    forall i | 0 <= i < |out1| ensures SameView(out1[i], out2[i]) {
      var id := Ids(out1)[i];
      assert id == Ids(out2)[i] && out1[i] in out1 && out2[i] in out2;
      OrderFreeExactly(xs, id);
      var v :| Dominated(xs, id, v);
      DominatedIsOrderFree(xs, id, v);
    }
  }

  lemma SortedOutput(xs: seq<ChainEvent>) returns (out: seq<ChainEvent>)
    ensures SortedValues(Collect(xs), out)
  {
    ByIdIsStrict();
    var m := Collect(xs);
    forall x, y | x in ValuesOf(m) && y in ValuesOf(m) ensures x == y || ById(x, y) || ById(y, x) {
      LessTotal(x.id, y.id);
    }
    SortedExists(ValuesOf(m), ById);
    out :| Sorted(out, ById) && forall x :: x in out <==> x in ValuesOf(m);
  }

  lemma OutputShowsKept(xs: seq<ChainEvent>, id: string, ys: seq<ChainEvent>)
    requires multiset(ys) == multiset(xs) && id in Collect(xs) && id in Collect(ys)
    ensures OutputOrderFree(xs) ==> SameView(Collect(ys)[id], Collect(xs)[id])
  {
    var out1 := SortedOutput(xs);
    var out2 := SortedOutput(ys);
    if OutputOrderFree(xs) {
      assert SameViews(out1, out2);
      assert Collect(xs)[id] in out1;
      var i :| 0 <= i < |out1| && out1[i] == Collect(xs)[id];
      assert SameView(out1[i], out2[i]) && out2[i] in out2;
      assert out2[i] == Collect(ys)[id];
    }
  }

  /** The output as a whole ignores the order of the events if and only if every id has a dominant view. */
  lemma OutputOrderFreeExactly(xs: seq<ChainEvent>)
    ensures OutputOrderFree(xs) <==> forall id | id in Collect(xs) :: HasDominantView(xs, id)
  {
    if forall id | id in Collect(xs) :: HasDominantView(xs, id) {
      forall ys, out1, out2 |
        && multiset(ys) == multiset(xs)
        && SortedValues(Collect(xs), out1) && SortedValues(Collect(ys), out2)
        ensures SameViews(out1, out2)
      {
        DominantViewsFixOutput(xs, ys, out1, out2);
      }
    } else {
      var id :| id in Collect(xs) && !HasDominantView(xs, id);
      OrderFreeExactly(xs, id);
      var ys :| multiset(ys) == multiset(xs) && !(id in Collect(ys) && SameView(Collect(ys)[id], Collect(xs)[id]));
      SameCollectedIds(xs, ys);
      OutputShowsKept(xs, id, ys);
    }
  }

  // ----- Mixed deltas -----

  lemma NineAndTen()
    ensures ParseDecimal("9") == Some(9) && ParseDecimal("10") == Some(10)
    ensures TrimSpace("9") == "9" && TrimSpace("10") == "10"
  {
    assert "9"[..0] == "" && "10"[..1] == "1" && "1"[..0] == "";
    assert DigitsValue("9") == 9 && DigitsValue("1") == 1 && DigitsValue("10") == 10;
    assert Trimmed("9") && Trimmed("10");
  }

  lemma OneZ()
    ensures ParseDecimal("1z") == None && TrimSpace("1z") == "1z"
  {
    assert "1z"[1] == 'z' && Trimmed("1z");
  }

  lemma TextOrder()
    ensures Less("10", "1z") && Less("1z", "9")
  {
    assert "10"[1..] == "0" && "1z"[1..] == "z" && Less("0", "z");
  }

  /** When only some deltas of an id parse, three of them can replace each other in a circle. */
  lemma MixedDeltasCycle()
    ensures SmallerDelta("10", "9") && SmallerDelta("1z", "10") && SmallerDelta("9", "1z")
    ensures !SmallerDelta("9", "10") && !SmallerDelta("10", "1z") && !SmallerDelta("1z", "9")
  {
    NineAndTen();
    OneZ();
    TextOrder();
    Strict("10", "1z", "");
    Strict("1z", "9", "");
  }

  lemma LastOfThree(a: ChainEvent, b: ChainEvent, c: ChainEvent)
    requires a.id == b.id == c.id && !Replaces(a, b) && Replaces(a, c)
    ensures Collect([a, b, c]) == map[c.id := c]
  {
    assert [a][..0] == [] && [a, b][..1] == [a] && [a, b, c][..2] == [a, b];
    assert Collect([a]) == map[a.id := a];
    assert Collect([a, b]) == map[a.id := a];
  }

  lemma DeltaDecides(e: ChainEvent, left: string, right: string)
    ensures Replaces(e.(delta := left), e.(delta := right)) == SmallerDelta(left, right)
  {
  }

  /** Then the event that survives depends on the order of arrival. */
  lemma MixedDeltasDependOnOrder(e: ChainEvent)
    ensures Collect([e.(delta := "9"), e.(delta := "10"), e.(delta := "1z")]) == map[e.id := e.(delta := "1z")]
    ensures Collect([e.(delta := "1z"), e.(delta := "9"), e.(delta := "10")]) == map[e.id := e.(delta := "10")]
  {
    MixedDeltasCycle();
    DeltaDecides(e, "9", "10");
    DeltaDecides(e, "9", "1z");
    DeltaDecides(e, "1z", "9");
    DeltaDecides(e, "1z", "10");
    LastOfThree(e.(delta := "9"), e.(delta := "10"), e.(delta := "1z"));
    LastOfThree(e.(delta := "1z"), e.(delta := "9"), e.(delta := "10"));
  }
}
