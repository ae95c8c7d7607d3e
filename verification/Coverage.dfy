/** Merging two decoded results of one transaction: one event per coverage key, aliases of a lineage collapsed. */
module Coverage {
  import opened Ledger
  import opened Text
  import opened Identity
  import opened KeepBest
  import opened InstructionPaths
  import opened EventCanon

  datatype Decoded = Decoded(
    category: string, action: string, program: string, address: string, contract: string, counterparty: string,
    symbol: string, name: string, decimals: int, tokenType: string, delta: string, outer: int, inner: int,
    metadata: map<string, string>)

  /** The chain-dependent rules of a merge. */
  datatype Rules = Rules(
    key: Decoded -> string,
    lineage: Decoded -> string,
    hinted: Decoded -> bool,
    beaten: (Decoded, Decoded) -> bool,
    merge: (Decoded, Decoded) -> Decoded)

  // ----- The rules of a chain -----

  function AddressOrTrimmed(chain: Chain, s: string): string {
    OrElse(CanonicalAddressIdentity(chain, s), TrimSpace(s))
  }

  function CategoryOf(e: Decoded): string {
    OrElse(ToUpper(TrimSpace(e.category)), ToUpper(TrimSpace(e.action)))
  }

  predicate IsFeeCategory(category: string) {
    var folded := ToLower(category);
    folded == "fee" || folded == "fee_execution_l2" || folded == "fee_data_l1"
  }

  /** decodedEventPath. */
  function DecodedPath(chain: Chain, e: Decoded): string {
    if IsEVMChain(chain) then OrElse(BasePath(e.metadata), InstructionPath(e.outer, e.inner))
    else match MetadataPath(e.metadata)
      case Some((outer, inner)) => InstructionPath(outer, inner)
      case None => InstructionPath(e.outer, e.inner)
  }

  /** decodedCoverageEventKey. It is never empty, so the fingerprint fallback for empty keys is not needed. */
  function CoverageKey(chain: Chain, e: Decoded): (k: string)
    ensures k != ""
  {
    DecodedPath(chain, e) + "|" + AddressOrTrimmed(chain, e.address) + "|" + AddressOrTrimmed(chain, e.contract) +
    "|" + CategoryOf(e)
  }

  /** decodedCoverageEventLineageKey: the event without its path. */
  function LineageKey(chain: Chain, e: Decoded): (k: string)
    ensures k != ""
  {
    var category := CategoryOf(e);
    var delta := if IsFeeCategory(category) then FeeDelta(TrimSpace(e.delta)) else TrimSpace(e.delta);
    category + "|" + AddressOrTrimmed(chain, TrimSpace(e.address)) +
    "|" + AddressOrTrimmed(chain, TrimSpace(e.contract)) +
    "|" + AddressOrTrimmed(chain, TrimSpace(e.counterparty)) + "|" + delta
  }

  /** decodedCoverageEventHasPathHint. */
  predicate HasPathHint(chain: Chain, e: Decoded) {
    if IsEVMChain(chain) then BasePath(e.metadata) != ""
    else if chain == Solana then MetadataPath(e.metadata).Some?
    else TrimSpace(Lookup(e.metadata, "event_path")) != ""
  }

  function One(s: string): nat {
    if TrimSpace(s) == "" then 0 else 1
  }

  function PopulatedFields(e: Decoded): nat {
    One(e.category) + One(e.action) + One(e.program) + One(e.address) + One(e.contract) + One(e.counterparty) +
    One(e.symbol) + One(e.name) + One(e.delta) + (if e.decimals != 0 then 1 else 0) + One(e.tokenType)
  }

  /** decodedEventFingerprint. */
  function Fingerprint(chain: Chain, e: Decoded): string {
    var category := ToUpper(TrimSpace(e.category));
    var delta := if IsFeeCategory(category) then FeeDelta(TrimSpace(e.delta)) else TrimSpace(e.delta);
    DecodedPath(chain, e) + "|" + CanonicalAddressIdentity(chain, e.address) +
    "|" + AddressOrTrimmed(chain, e.contract) + "|" + delta
  }

  /** shouldReplaceDecodedCoverageEvent. */
  predicate ReplacesCoverage(chain: Chain, existing: Decoded, incoming: Decoded) {
    if HasPathHint(chain, existing) != HasPathHint(chain, incoming) then HasPathHint(chain, incoming)
    else if |existing.metadata| != |incoming.metadata| then |incoming.metadata| > |existing.metadata|
    else if PopulatedFields(existing) != PopulatedFields(incoming) then
      PopulatedFields(incoming) > PopulatedFields(existing)
    else Less(Fingerprint(chain, incoming), Fingerprint(chain, existing))
  }

  predicate ParsesAmount(metadata: map<string, string>, key: string) {
    var raw := TrimSpace(Lookup(metadata, key));
    var body := if raw != "" && (raw[0] == '+' || raw[0] == '-') then raw[1..] else raw;
    ParseDecimal(body).Some?
  }

  /** The metadata yields both an execution fee and a data fee. */
  predicate HasFeeSplit(metadata: map<string, string>) {
    && (|| ParsesAmount(metadata, "fee_execution_l2")
        || (ParsesAmount(metadata, "gas_used") && ParsesAmount(metadata, "effective_gas_price"))
        || (ParsesAmount(metadata, "base_gas_used") && ParsesAmount(metadata, "base_effective_gas_price")))
    && (|| ParsesAmount(metadata, "fee_data_l1") || ParsesAmount(metadata, "data_fee_l1")
        || ParsesAmount(metadata, "l1_data_fee") || ParsesAmount(metadata, "l1_fee"))
  }

  predicate IsFeeComponent(key: string) {
    key == "fee_execution_l2" || key == "fee_data_l1" || key == "data_fee_l1" || key == "l1_data_fee" || key == "l1_fee"
  }

  function FeeComponents(metadata: map<string, string>): map<string, string> {
    map k | k in metadata && IsFeeComponent(k) && TrimSpace(metadata[k]) != "" :: TrimSpace(metadata[k])
  }

  /**
   * mergeDecodedCoverageEventMetadata: missing keys are added; a complete fee split is copied over an
   * incomplete one.
   */
  function MergedMetadata(
    chain: Chain, preferred: map<string, string>, additional: map<string, string>): map<string, string>
  {
    var merged := additional + preferred;
    if IsEVMChain(chain) && HasFeeSplit(additional) && !HasFeeSplit(preferred) then merged + FeeComponents(additional)
    else merged
  }

  function Merge(chain: Chain, preferred: Decoded, additional: Decoded): Decoded {
    if |additional.metadata| == 0 then preferred
    else preferred.(metadata := MergedMetadata(chain, preferred.metadata, additional.metadata))
  }

  function RulesOf(chain: Chain): Rules {
    Rules(
      e => CoverageKey(chain, e),
      e => LineageKey(chain, e),
      e => HasPathHint(chain, e),
      (a, b) => ReplacesCoverage(chain, a, b),
      (a, b) => Merge(chain, a, b))
  }

  // ----- The merge -----

  type ByKey = map<string, Decoded>

  /** The winner of every coverage key. */
  function Winners(rules: Rules, es: seq<Decoded>): ByKey {
    if es == [] then map[]
    else
      var m, e := Winners(rules, es[..|es| - 1]), es[|es| - 1];
      if rules.key(e) !in m || rules.beaten(m[rules.key(e)], e) then m[rules.key(e) := e] else m
  }

  function HintedOf(rules: Rules, m: ByKey, keys: seq<string>): seq<string> {
    if keys == [] then []
    else
      var k := keys[|keys| - 1];
      HintedOf(rules, m, keys[..|keys| - 1]) + if k in m && rules.hinted(m[k]) then [k] else []
  }

  function PathlessOf(rules: Rules, m: ByKey, keys: seq<string>): seq<string> {
    if keys == [] then []
    else
      var k := keys[|keys| - 1];
      PathlessOf(rules, m, keys[..|keys| - 1]) + if k in m && !rules.hinted(m[k]) then [k] else []
  }

  /** The keeper with the metadata of the listed events merged in, one after the other. */
  function MergeAll(rules: Rules, m: ByKey, keeper: Decoded, keys: seq<string>): Decoded {
    if keys == [] then keeper
    else
      var k := keys[|keys| - 1];
      var merged := MergeAll(rules, m, keeper, keys[..|keys| - 1]);
      if k in m then rules.merge(merged, m[k]) else merged
  }

  function Members(keys: seq<string>): set<string> {
    set k | k in keys
  }

  /** What becomes of one lineage group: pathless aliases collapse into a single path-hinted event. */
  function GroupDone(rules: Rules, m: ByKey, keys: seq<string>): ByKey {
    var hinted, pathless := HintedOf(rules, m, keys), PathlessOf(rules, m, keys);
    if |hinted| != 1 || pathless == [] || hinted[0] !in m then m
    else (m - Members(pathless))[hinted[0] := MergeAll(rules, m, m[hinted[0]], pathless)]
  }

  function ReconcileAll(rules: Rules, m: ByKey, groups: seq<seq<string>>): ByKey {
    if groups == [] then m else GroupDone(rules, ReconcileAll(rules, m, groups[..|groups| - 1]), groups[|groups| - 1])
  }

  /** A path hint decides the replacement rule. */
  ghost predicate HintDominates(rules: Rules) {
    forall a, b | rules.hinted(a) && !rules.hinted(b) :: !rules.beaten(a, b)
  }

  lemma {:induction false} HintedMembers(rules: Rules, m: ByKey, keys: seq<string>)
    ensures forall k :: k in HintedOf(rules, m, keys) <==> k in keys && k in m && rules.hinted(m[k])
    ensures forall k :: k in PathlessOf(rules, m, keys) <==> k in keys && k in m && !rules.hinted(m[k])
    decreases |keys|
  {
    if keys != [] {
      HintedMembers(rules, m, keys[..|keys| - 1]);
      assert keys == keys[..|keys| - 1] + [keys[|keys| - 1]];
    }
  }

  lemma HintedExtend(rules: Rules, m: ByKey, keys: seq<string>, i: nat)
    requires i < |keys|
    ensures HintedOf(rules, m, keys[..i + 1])
         == HintedOf(rules, m, keys[..i]) + if keys[i] in m && rules.hinted(m[keys[i]]) then [keys[i]] else []
    ensures PathlessOf(rules, m, keys[..i + 1])
         == PathlessOf(rules, m, keys[..i]) + if keys[i] in m && !rules.hinted(m[keys[i]]) then [keys[i]] else []
  {
    assert keys[..i + 1][..i] == keys[..i];
  }

  /** Splitting a group by path hint. */
  method Partition(rules: Rules, m: ByKey, keys: seq<string>) returns (hinted: seq<string>, pathless: seq<string>)
    ensures hinted == HintedOf(rules, m, keys) && pathless == PathlessOf(rules, m, keys)
  {
    hinted, pathless := [], [];
    for i := 0 to |keys|
      invariant hinted == HintedOf(rules, m, keys[..i]) && pathless == PathlessOf(rules, m, keys[..i])
    {
      HintedExtend(rules, m, keys, i);
      if keys[i] !in m { continue; }
      if rules.hinted(m[keys[i]]) { hinted := hinted + [keys[i]]; } else { pathless := pathless + [keys[i]]; }
    }
    assert keys[..|keys|] == keys;
  }

  lemma {:induction false} SingleHinted(rules: Rules, m: ByKey, keys: seq<string>, h: string)
    requires HintedOf(rules, m, keys) == [h]
    ensures h in keys && h in m && rules.hinted(m[h])
    ensures forall k | k in keys && k in m && k != h :: !rules.hinted(m[k])
  {
    HintedMembers(rules, m, keys);
    assert h in HintedOf(rules, m, keys);
    forall k | k in keys && k in m && k != h ensures !rules.hinted(m[k]) {
      assert k in HintedOf(rules, m, keys) <==> k in [h];
    }
  }

  lemma ShortGroup(rules: Rules, m: ByKey, keys: seq<string>)
    requires forall a, b | a in keys && b in keys && a in m && b in m :: a == b
    ensures GroupDone(rules, m, keys) == m
  {
    HintedMembers(rules, m, keys);
    var hinted, pathless := HintedOf(rules, m, keys), PathlessOf(rules, m, keys);
    if hinted != [] { assert hinted[0] in hinted; }
    if pathless != [] { assert pathless[0] in pathless; }
  }

  /** One pass of the loop in reconcileDecodedCoverageLineageAliases. */
  method ReconcileGroup(rules: Rules, m: ByKey, keys: seq<string>) returns (r: ByKey)
    requires HintDominates(rules)
    ensures r == GroupDone(rules, m, keys)
  {
    if |keys| < 2 {
      ShortGroup(rules, m, keys);
      return m;
    }
    var hinted, pathless := Partition(rules, m, keys);
    if |hinted| != 1 || |pathless| == 0 { return m; }
    SingleHinted(rules, m, keys, hinted[0]);
    var keeperKey, keeper := hinted[0], m[hinted[0]];
    for i := 0 to |keys|
      invariant keeperKey == hinted[0] && keeper == m[hinted[0]]
    {
      if keys[i] == keeperKey || keys[i] !in m { continue; }
      assert keys[i] in keys;
      if rules.beaten(keeper, m[keys[i]]) { keeper, keeperKey := m[keys[i]], keys[i]; }
    }
    HintedMembers(rules, m, keys);
    r := MergeAliases(rules, m, keeperKey, pathless);
  }

  method MergeAliases(rules: Rules, m: ByKey, keeperKey: string, pathless: seq<string>) returns (r: ByKey)
    requires keeperKey in m && forall k | k in pathless :: k in m && k != keeperKey
    ensures r == (m - Members(pathless))[keeperKey := MergeAll(rules, m, m[keeperKey], pathless)]
  {
    var keeper := m[keeperKey];
    r := m;
    for i := 0 to |pathless|
      invariant keeper == MergeAll(rules, m, m[keeperKey], pathless[..i])
      invariant r == m - Members(pathless[..i])
    {
      var key := pathless[i];
      assert key in pathless && key in m;
      assert pathless[..i + 1] == pathless[..i] + [key];
      assert pathless[..i + 1][..i] == pathless[..i];
      keeper := rules.merge(keeper, m[key]);
      r := r - {key};
    }
    assert pathless[..|pathless|] == pathless;
    r := r[keeperKey := keeper];
  }

  // ----- Lineage groups -----

  function LineagesOf(rules: Rules, m: ByKey): set<string> {
    set k | k in m :: rules.lineage(m[k])
  }

  function GroupKeys(rules: Rules, m: ByKey, lineage: string): set<string> {
    set k | k in m && rules.lineage(m[k]) == lineage
  }

  /** The groups in the order of their lineage keys, each in the order of its coverage keys. */
  ghost predicate Groups(rules: Rules, m: ByKey, lineages: seq<string>, groups: seq<seq<string>>) {
    && |groups| == |lineages|
    && Sorted(lineages, Less) && (forall l :: l in lineages <==> l in LineagesOf(rules, m))
    && forall i | 0 <= i < |groups| ::
         Sorted(groups[i], Less) && forall k :: k in groups[i] <==> k in GroupKeys(rules, m, lineages[i])
  }

  /** Every lineage group settled, in the order of the lineage keys. */
  ghost predicate Reconciled(rules: Rules, m: ByKey, r: ByKey) {
    exists lineages, groups :: Groups(rules, m, lineages, groups) && r == ReconcileAll(rules, m, groups)
  }

  lemma LessComparable(s: set<string>)
    ensures StrictOrder(Less) && Comparable(s, Less)
  {
    LessIsStrict();
    forall x, y | x in s && y in s ensures x == y || Less(x, y) || Less(y, x) { LessTotal(x, y); }
  }

  /** reconcileDecodedCoverageLineageAliases. A map of fewer than two events has no group to collapse. */
  method Reconcile(rules: Rules, m: ByKey) returns (r: ByKey)
    requires HintDominates(rules)
    ensures Reconciled(rules, m, r)
  {
    LessComparable(LineagesOf(rules, m));
    var order := SortSet(LineagesOf(rules, m), Less);
    ghost var groups: seq<seq<string>> := [];
    r := m;
    for i := 0 to |order|
      invariant |groups| == i
      invariant forall j | 0 <= j < i ::
        Sorted(groups[j], Less) && forall k :: k in groups[j] <==> k in GroupKeys(rules, m, order[j])
      invariant r == ReconcileAll(rules, m, groups)
    {
      LessComparable(GroupKeys(rules, m, order[i]));
      var keys := SortSet(GroupKeys(rules, m, order[i]), Less);
      assert (groups + [keys])[..i] == groups;
      r := ReconcileGroup(rules, r, keys);
      groups := groups + [keys];
    }
    assert Groups(rules, m, order, groups);
  }

  function Values(m: ByKey, keys: seq<string>): (r: seq<Decoded>)
    requires forall i | 0 <= i < |keys| :: keys[i] in m
    ensures |r| == |keys| && forall i | 0 <= i < |keys| :: r[i] == m[keys[i]]
  {
    if keys == [] then [] else Values(m, keys[..|keys| - 1]) + [m[keys[|keys| - 1]]]
  }

  lemma WinnersExtend(rules: Rules, es: seq<Decoded>, i: nat)
    requires i < |es|
    ensures
      var m, e := Winners(rules, es[..i]), es[i];
      Winners(rules, es[..i + 1]) ==
        if rules.key(e) !in m || rules.beaten(m[rules.key(e)], e) then m[rules.key(e) := e] else m
  {
    assert es[..i + 1][..i] == es[..i];
  }

  /** The reconciled events in the order of their coverage keys. */
  ghost predicate SortedByKey(r: ByKey, keys: seq<string>, out: seq<Decoded>) {
    && Sorted(keys, Less) && (forall k :: k in keys <==> k in r)
    && |out| == |keys| && forall i | 0 <= i < |keys| :: out[i] == r[keys[i]]
  }

  /** What a merge of two decoded results produces. */
  ghost predicate MergeResult(rules: Rules, es: seq<Decoded>, out: seq<Decoded>) {
    exists r, keys :: Reconciled(rules, Winners(rules, es), r) && SortedByKey(r, keys, out)
  }

  /** mergeDecodedBalanceEvents. */
  method MergeDecodedBalanceEvents(rules: Rules, primary: seq<Decoded>, secondary: seq<Decoded>)
    returns (out: seq<Decoded>)
    requires HintDominates(rules)
    ensures MergeResult(rules, primary + secondary, out)
  {
    var es := primary + secondary;
    var byKey: ByKey := map[];
    for i := 0 to |es|
      invariant byKey == Winners(rules, es[..i])
    {
      WinnersExtend(rules, es, i);
      var key := rules.key(es[i]);
      if key !in byKey || rules.beaten(byKey[key], es[i]) { byKey := byKey[key := es[i]]; }
    }
    assert es[..|es|] == es;
    var reconciled := Reconcile(rules, byKey);
    LessComparable(reconciled.Keys);
    var order := SortSet(reconciled.Keys, Less);
    assert forall i | 0 <= i < |order| :: order[i] in order && order[i] in reconciled;
    out := Values(reconciled, order);
    assert SortedByKey(reconciled, order, out);
  }
}
