/** No coverage is lost in a merge: every coverage key survives, or its pathless winner collapsed into its lineage. */
module CoverageLaws {
  import opened Sums
  import opened Ledger
  import opened Text
  import opened Identity
  import opened KeepBest
  import opened InstructionPaths
  import opened EventCanon
  import opened Coverage

  // ----- What a merge needs of its rules -----

  /** `c` is `a` with more metadata. */
  predicate Enriched(a: Decoded, c: Decoded) {
    c == a.(metadata := c.metadata) && Kept(a, c)
  }

  /** Merging a pathless event into a path-hinted one adds metadata and leaves its hint and lineage alone. */
  predicate EnrichesPair(rules: Rules, a: Decoded, b: Decoded) {
    rules.hinted(a) && !rules.hinted(b) ==>
      var c := rules.merge(a, b);
      Enriched(a, c) && Kept(b, c) && rules.hinted(c) && rules.lineage(c) == rules.lineage(a)
  }

  ghost predicate MergeEnriches(rules: Rules) {
    forall a, b :: EnrichesPair(rules, a, b)
  }

  /** Merging `b` into a path-hinted event never changes the latter's coverage key. */
  ghost predicate Harmless(rules: Rules, b: Decoded) {
    forall a :: LeavesKey(rules, a, b)
  }

  predicate LeavesKey(rules: Rules, a: Decoded, b: Decoded) {
    rules.hinted(a) ==> rules.key(rules.merge(a, b)) == rules.key(a)
  }

  ghost predicate AllHarmless(rules: Rules, m: ByKey) {
    forall k | k in m && !rules.hinted(m[k]) :: Harmless(rules, m[k])
  }

  /** Every metadata key of `a` is present in `c`. */
  predicate Kept(a: Decoded, c: Decoded) {
    forall k | k in a.metadata :: k in c.metadata
  }

  lemma HintDominatesOn(chain: Chain)
    ensures HintDominates(RulesOf(chain))
  {
    var rules := RulesOf(chain);
    forall a, b | rules.hinted(a) && !rules.hinted(b) ensures !rules.beaten(a, b) {
    }
  }

  /**
   * A key that is not a fee component reads in the merged metadata as in the preferred, or else the
   * additional, one.
   */
  lemma MergedLookup(chain: Chain, preferred: map<string, string>, additional: map<string, string>, key: string)
    requires !IsFeeComponent(key)
    ensures Lookup(MergedMetadata(chain, preferred, additional), key)
         == if key in preferred then preferred[key] else Lookup(additional, key)
  {
  }

  lemma BasePathOfMerged(chain: Chain, preferred: map<string, string>, additional: map<string, string>)
    requires BasePath(additional) == ""
    ensures BasePath(MergedMetadata(chain, preferred, additional)) == BasePath(preferred)
  {
    MergedLookup(chain, preferred, additional, "event_path");
    MergedLookup(chain, preferred, additional, "log_path");
    MergedLookup(chain, preferred, additional, "log_index");
    MergedLookup(chain, preferred, additional, "base_log_index");
    MergedLookup(chain, preferred, additional, "base_event_path");
  }

  lemma NoPathInNothing()
    ensures ParsePath("") == None
  {
  }

  lemma FirstPathOfMerged(
    parse: PathParser, chain: Chain, preferred: map<string, string>, additional: map<string, string>)
    requires parse("") == None && FirstPath(parse, additional).None?
    ensures FirstPath(parse, MergedMetadata(chain, preferred, additional)) == FirstPath(parse, preferred)
  {
    MergedLookup(chain, preferred, additional, "event_path");
    MergedLookup(chain, preferred, additional, "instruction_path");
    MergedLookup(chain, preferred, additional, "solana_event_path");
  }

  lemma MetadataPathOfMerged(chain: Chain, preferred: map<string, string>, additional: map<string, string>)
    requires MetadataPath(additional).None?
    ensures MetadataPath(MergedMetadata(chain, preferred, additional)) == MetadataPath(preferred)
  {
    NoPathInNothing();
    FirstPathOfMerged(ParsePath, chain, preferred, additional);
  }

  lemma SamePathSameKey(chain: Chain, e: Decoded, metadata: map<string, string>)
    requires DecodedPath(chain, e.(metadata := metadata)) == DecodedPath(chain, e)
    ensures CoverageKey(chain, e.(metadata := metadata)) == CoverageKey(chain, e)
  {
  }

  lemma LineageIgnoresMetadata(chain: Chain, e: Decoded, metadata: map<string, string>)
    ensures LineageKey(chain, e.(metadata := metadata)) == LineageKey(chain, e)
  {
  }

  lemma PathKept(chain: Chain, a: Decoded, b: Decoded)
    requires IsEVMChain(chain) || chain == Solana
    requires HasPathHint(chain, a) && !HasPathHint(chain, b)
    ensures
      var c := a.(metadata := MergedMetadata(chain, a.metadata, b.metadata));
      HasPathHint(chain, c) && DecodedPath(chain, c) == DecodedPath(chain, a)
  {
    if IsEVMChain(chain) { BasePathOfMerged(chain, a.metadata, b.metadata); }
    else { MetadataPathOfMerged(chain, a.metadata, b.metadata); }
  }

  lemma OutputPathKept(chain: Chain, a: map<string, string>, b: map<string, string>)
    requires TrimSpace(Lookup(a, "event_path")) != ""
    ensures Lookup(MergedMetadata(chain, a, b), "event_path") == Lookup(a, "event_path")
  {
    TrimEmpty();
    MergedLookup(chain, a, b, "event_path");
  }

  lemma HintOfMerged(chain: Chain, a: Decoded, b: Decoded)
    requires HasPathHint(chain, a) && !HasPathHint(chain, b)
    ensures HasPathHint(chain, a.(metadata := MergedMetadata(chain, a.metadata, b.metadata)))
  {
    if IsEVMChain(chain) || chain == Solana {
      PathKept(chain, a, b);
    } else {
      OutputPathKept(chain, a.metadata, b.metadata);
    }
  }

  lemma MergeOf(chain: Chain, a: Decoded, b: Decoded)
    ensures Merge(chain, a, b) == a ||
      Merge(chain, a, b) == a.(metadata := MergedMetadata(chain, a.metadata, b.metadata))
    ensures Enriched(a, Merge(chain, a, b)) && Kept(b, Merge(chain, a, b))
  {
  }

  lemma MergeEnrichesOn(chain: Chain)
    ensures MergeEnriches(RulesOf(chain))
  {
    var rules := RulesOf(chain);
    forall a, b ensures EnrichesPair(rules, a, b) {
      assert rules.merge(a, b) == Merge(chain, a, b);
      MergeOf(chain, a, b);
      if HasPathHint(chain, a) && !HasPathHint(chain, b) { HintOfMerged(chain, a, b); }
      LineageIgnoresMetadata(chain, a, MergedMetadata(chain, a.metadata, b.metadata));
    }
  }

  /** What a caller can check: a pathless event on BTC whose metadata spells out an instruction path is not harmless. */
  predicate SpellsNoPath(chain: Chain, e: Decoded) {
    IsEVMChain(chain) || MetadataPath(e.metadata).None?
  }

  lemma LogPathDecides(chain: Chain, e: Decoded, metadata: map<string, string>)
    requires IsEVMChain(chain) && BasePath(metadata) == BasePath(e.metadata)
    ensures DecodedPath(chain, e.(metadata := metadata)) == DecodedPath(chain, e)
  {
  }

  lemma InstructionPathDecides(chain: Chain, e: Decoded, metadata: map<string, string>)
    requires !IsEVMChain(chain) && MetadataPath(metadata) == MetadataPath(e.metadata)
    ensures DecodedPath(chain, e.(metadata := metadata)) == DecodedPath(chain, e)
  {
  }

  lemma PathOfMerged(chain: Chain, a: Decoded, b: Decoded)
    requires !HasPathHint(chain, b) && SpellsNoPath(chain, b)
    ensures DecodedPath(chain, a.(metadata := MergedMetadata(chain, a.metadata, b.metadata))) == DecodedPath(chain, a)
  {
    if IsEVMChain(chain) {
      BasePathOfMerged(chain, a.metadata, b.metadata);
      LogPathDecides(chain, a, MergedMetadata(chain, a.metadata, b.metadata));
    } else {
      MetadataPathOfMerged(chain, a.metadata, b.metadata);
      InstructionPathDecides(chain, a, MergedMetadata(chain, a.metadata, b.metadata));
    }
  }

  lemma KeyOfMerged(chain: Chain, a: Decoded, b: Decoded)
    requires !HasPathHint(chain, b) && SpellsNoPath(chain, b)
    ensures CoverageKey(chain, Merge(chain, a, b)) == CoverageKey(chain, a)
  {
    MergeOf(chain, a, b);
    PathOfMerged(chain, a, b);
    SamePathSameKey(chain, a, MergedMetadata(chain, a.metadata, b.metadata));
  }

  /** Merging a pathless event that spells out no instruction path never changes a coverage key. */
  lemma HarmlessOn(chain: Chain, b: Decoded)
    requires !HasPathHint(chain, b) && SpellsNoPath(chain, b)
    ensures Harmless(RulesOf(chain), b)
  {
    var rules := RulesOf(chain);
    forall a ensures LeavesKey(rules, a, b) {
      assert rules.merge(a, b) == Merge(chain, a, b);
      KeyOfMerged(chain, a, b);
    }
  }

  // ----- Winners -----

  lemma {:induction false} WinnersDomain(rules: Rules, es: seq<Decoded>)
    ensures forall e | e in es :: rules.key(e) in Winners(rules, es)
    ensures forall k | k in Winners(rules, es) :: Winners(rules, es)[k] in es && rules.key(Winners(rules, es)[k]) == k
    decreases |es|
  {
    if es != [] {
      WinnersDomain(rules, es[..|es| - 1]);
      assert forall e :: e in es <==> e in es[..|es| - 1] || e == es[|es| - 1];
    }
  }

  ghost predicate HintWins(rules: Rules) {
    forall a, b | !rules.hinted(a) && rules.hinted(b) :: rules.beaten(a, b)
  }

  lemma HintWinsOn(chain: Chain)
    ensures HintWins(RulesOf(chain))
  {
  }

  lemma {:induction false} HintStays(rules: Rules, es: seq<Decoded>, e: Decoded)
    requires HintDominates(rules) && HintWins(rules) && e in es && rules.hinted(e)
    ensures rules.key(e) in Winners(rules, es) && rules.hinted(Winners(rules, es)[rules.key(e)])
    decreases |es|
  {
    var init, last := es[..|es| - 1], es[|es| - 1];
    assert forall x :: x in es <==> x in init || x == last;
    if e in init { HintStays(rules, init, e); }
  }

  /** On every chain a path-hinted event is never given up for a pathless one of the same key. */
  lemma HintIsKept(chain: Chain, es: seq<Decoded>, e: Decoded)
    requires e in es && HasPathHint(chain, e)
    ensures CoverageKey(chain, e) in Winners(RulesOf(chain), es)
    ensures HasPathHint(chain, Winners(RulesOf(chain), es)[CoverageKey(chain, e)])
  {
    var rules := RulesOf(chain);
    HintDominatesOn(chain);
    HintWinsOn(chain);
    assert rules.hinted(e) && rules.key(e) == CoverageKey(chain, e);
    HintStays(rules, es, e);
    assert rules.hinted(Winners(rules, es)[rules.key(e)]) == HasPathHint(chain, Winners(rules, es)[rules.key(e)]);
  }

  // ----- One group -----

  ghost predicate AgreeOn(m1: ByKey, m2: ByKey, keys: seq<string>) {
    forall k | k in keys :: (k in m1 <==> k in m2) && (k in m1 ==> m1[k] == m2[k])
  }

  lemma {:induction false} GroupIsLocal(rules: Rules, m1: ByKey, m2: ByKey, keys: seq<string>)
    requires AgreeOn(m1, m2, keys)
    ensures HintedOf(rules, m1, keys) == HintedOf(rules, m2, keys)
    ensures PathlessOf(rules, m1, keys) == PathlessOf(rules, m2, keys)
    decreases |keys|
  {
    if keys != [] {
      assert keys[|keys| - 1] in keys && forall k | k in keys[..|keys| - 1] :: k in keys;
      GroupIsLocal(rules, m1, m2, keys[..|keys| - 1]);
    }
  }

  lemma {:induction false} MergeIsLocal(rules: Rules, m1: ByKey, m2: ByKey, keeper: Decoded, keys: seq<string>)
    requires AgreeOn(m1, m2, keys)
    ensures MergeAll(rules, m1, keeper, keys) == MergeAll(rules, m2, keeper, keys)
    decreases |keys|
  {
    if keys != [] {
      assert keys[|keys| - 1] in keys && forall k | k in keys[..|keys| - 1] :: k in keys;
      MergeIsLocal(rules, m1, m2, keeper, keys[..|keys| - 1]);
    }
  }

  lemma OutsideGroup(rules: Rules, m: ByKey, keys: seq<string>, k: string)
    requires k !in keys
    ensures (k in GroupDone(rules, m, keys) <==> k in m) && (k in m ==> GroupDone(rules, m, keys)[k] == m[k])
  {
    HintedMembers(rules, m, keys);
    var hinted := HintedOf(rules, m, keys);
    if |hinted| == 1 { assert hinted[0] in hinted; }
  }

  lemma SameAt(rules: Rules, m1: ByKey, m2: ByKey, keys: seq<string>, k: string)
    requires AgreeOn(m1, m2, keys) && k in keys
    ensures k in GroupDone(rules, m1, keys) <==> k in GroupDone(rules, m2, keys)
    ensures k in GroupDone(rules, m1, keys) ==> GroupDone(rules, m1, keys)[k] == GroupDone(rules, m2, keys)[k]
  {
    GroupIsLocal(rules, m1, m2, keys);
    HintedMembers(rules, m1, keys);
    var hinted, pathless := HintedOf(rules, m1, keys), PathlessOf(rules, m1, keys);
    if |hinted| == 1 {
      assert hinted[0] in hinted;
      MergeIsLocal(rules, m1, m2, m1[hinted[0]], pathless);
    }
  }

  /** The last group does not touch the others. */
  lemma {:induction false} OutsideGroups(rules: Rules, m: ByKey, groups: seq<seq<string>>, k: string)
    requires forall i | 0 <= i < |groups| :: k !in groups[i]
    ensures (k in ReconcileAll(rules, m, groups) <==> k in m) && (k in m ==> ReconcileAll(rules, m, groups)[k] == m[k])
    decreases |groups|
  {
    if groups != [] {
      var init := groups[..|groups| - 1];
      OutsideGroups(rules, m, init, k);
      OutsideGroup(rules, ReconcileAll(rules, m, init), groups[|groups| - 1], k);
    }
  }

  ghost predicate Disjoint(groups: seq<seq<string>>) {
    forall i, j, k | 0 <= i < j < |groups| && k in groups[i] :: k !in groups[j]
  }

  /** Each group is settled as if it were alone. */
  lemma {:induction false} EachGroupAlone(rules: Rules, m: ByKey, groups: seq<seq<string>>, i: nat, k: string)
    requires Disjoint(groups) && i < |groups| && k in groups[i]
    ensures k in ReconcileAll(rules, m, groups) <==> k in GroupDone(rules, m, groups[i])
    ensures k in GroupDone(rules, m, groups[i]) ==>
      ReconcileAll(rules, m, groups)[k] == GroupDone(rules, m, groups[i])[k]
    decreases |groups|
  {
    var init, last := groups[..|groups| - 1], groups[|groups| - 1];
    var before := ReconcileAll(rules, m, init);
    if i < |groups| - 1 {
      EachGroupAlone(rules, m, init, i, k);
      OutsideGroup(rules, before, last, k);
    } else {
      forall x | x in last ensures (x in before <==> x in m) && (x in before ==> before[x] == m[x]) {
        OutsideGroups(rules, m, init, x);
      }
      SameAt(rules, before, m, last, k);
    }
  }

  lemma GroupsAreDisjoint(rules: Rules, m: ByKey, lineages: seq<string>, groups: seq<seq<string>>)
    requires Groups(rules, m, lineages, groups)
    ensures Disjoint(groups)
  {
    LessIsStrict();
    forall i, j, k | 0 <= i < j < |groups| && k in groups[i] ensures k !in groups[j] {
      assert Less(lineages[i], lineages[j]);
      assert k in GroupKeys(rules, m, lineages[i]);
    }
  }

  lemma GroupOfKey(rules: Rules, m: ByKey, lineages: seq<string>, groups: seq<seq<string>>, k: string) returns (i: nat)
    requires Groups(rules, m, lineages, groups) && k in m
    ensures i < |groups| && k in groups[i] && lineages[i] == rules.lineage(m[k])
  {
    assert rules.lineage(m[k]) in LineagesOf(rules, m);
    i :| 0 <= i < |lineages| && lineages[i] == rules.lineage(m[k]);
    assert k in GroupKeys(rules, m, lineages[i]);
  }

  // ----- The merge as a whole -----

  /** The events merged into a keeper leave its hint and lineage alone, and their metadata is in it. */
  lemma {:induction false} KeeperEnriched(rules: Rules, m: ByKey, keeper: Decoded, keys: seq<string>)
    requires MergeEnriches(rules) && rules.hinted(keeper)
    requires forall k | k in keys :: k in m && !rules.hinted(m[k])
    ensures
      var c := MergeAll(rules, m, keeper, keys);
      && rules.hinted(c) && rules.lineage(c) == rules.lineage(keeper) && Enriched(keeper, c)
      && (forall k | k in keys :: k in m && Kept(m[k], c))
    decreases |keys|
  {
    if keys != [] {
      var init, last := keys[..|keys| - 1], keys[|keys| - 1];
      assert last in keys && forall k :: k in keys <==> k in init || k == last;
      KeeperEnriched(rules, m, keeper, init);
      assert EnrichesPair(rules, MergeAll(rules, m, keeper, init), m[last]);
    }
  }

  lemma HarmlessMerge(rules: Rules, c: Decoded, b: Decoded)
    requires Harmless(rules, b) && rules.hinted(c)
    ensures rules.key(rules.merge(c, b)) == rules.key(c)
  {
    assert LeavesKey(rules, c, b);
  }

  lemma OneMoreMerged(rules: Rules, m: ByKey, keeper: Decoded, keys: seq<string>)
    requires keys != [] && keys[|keys| - 1] in m
    ensures MergeAll(rules, m, keeper, keys)
         == rules.merge(MergeAll(rules, m, keeper, keys[..|keys| - 1]), m[keys[|keys| - 1]])
  {
  }

  /** Harmless events leave its coverage key alone, too. */
  lemma {:induction false} KeeperKeepsKey(rules: Rules, m: ByKey, keeper: Decoded, keys: seq<string>)
    requires MergeEnriches(rules) && rules.hinted(keeper) && AllHarmless(rules, m)
    requires forall k | k in keys :: k in m && !rules.hinted(m[k])
    ensures rules.key(MergeAll(rules, m, keeper, keys)) == rules.key(keeper)
    decreases |keys|
  {
    if keys != [] {
      var init, last := keys[..|keys| - 1], keys[|keys| - 1];
      assert last in keys && forall k | k in init :: k in keys;
      KeeperKeepsKey(rules, m, keeper, init);
      KeeperEnriched(rules, m, keeper, init);
      OneMoreMerged(rules, m, keeper, keys);
      HarmlessMerge(rules, MergeAll(rules, m, keeper, init), m[last]);
    }
  }

  /** `h` is the one path-hinted winner of the lineage of `k`, which is pathless. */
  ghost predicate CollapsesInto(rules: Rules, m: ByKey, k: string, h: string) {
    && k in m && h in m && !rules.hinted(m[k]) && rules.hinted(m[h])
    && rules.lineage(m[h]) == rules.lineage(m[k])
    && forall x | x in m && rules.lineage(m[x]) == rules.lineage(m[k]) && rules.hinted(m[x]) :: x == h
  }

  /** What a reconciled map holds for a key of the collected one. */
  ghost predicate Accounted(rules: Rules, m: ByKey, r: ByKey, k: string)
    requires k in m
  {
    if k in r then Enriched(m[k], r[k]) && rules.lineage(r[k]) == rules.lineage(m[k])
    else exists h | h in r ::
      && CollapsesInto(rules, m, k, h)
      && rules.hinted(r[h]) && rules.lineage(r[h]) == rules.lineage(m[k]) && Kept(m[k], r[h])
  }

  /** The event under a key has that key. */
  predicate OwnKey(rules: Rules, r: ByKey, k: string) {
    k in r ==> rules.key(r[k]) == k
  }

  /** One group: kept as it is, or its pathless events collapse into the single path-hinted one. */
  lemma GroupAccounts(rules: Rules, m: ByKey, keys: seq<string>, lineage: string, k: string)
    requires MergeEnriches(rules)
    requires (forall x :: x in keys <==> x in GroupKeys(rules, m, lineage)) && k in keys
    ensures Accounted(rules, m, GroupDone(rules, m, keys), k)
  {
    HintedMembers(rules, m, keys);
    var hinted, pathless := HintedOf(rules, m, keys), PathlessOf(rules, m, keys);
    if |hinted| == 1 && pathless != [] {
      var h := hinted[0];
      assert hinted == [h];
      SingleHinted(rules, m, keys, h);
      KeeperEnriched(rules, m, m[h], pathless);
      if k != h {
        assert k in pathless;
        assert CollapsesInto(rules, m, k, h);
      }
    }
  }

  lemma GroupKeepsKey(rules: Rules, m: ByKey, keys: seq<string>, k: string)
    requires MergeEnriches(rules) && AllHarmless(rules, m) && OwnKey(rules, m, k)
    ensures OwnKey(rules, GroupDone(rules, m, keys), k)
  {
    HintedMembers(rules, m, keys);
    var hinted, pathless := HintedOf(rules, m, keys), PathlessOf(rules, m, keys);
    if |hinted| == 1 && pathless != [] {
      var h := hinted[0];
      assert h in hinted;
      if k == h {
        KeeperKeepsKey(rules, m, m[h], pathless);
        assert GroupDone(rules, m, keys)[k] == MergeAll(rules, m, m[k], pathless);
      } else {
        assert k in GroupDone(rules, m, keys) ==> k in m && GroupDone(rules, m, keys)[k] == m[k];
      }
    }
  }

  lemma AccountedTransfers(rules: Rules, m: ByKey, done: ByKey, r: ByKey, keys: seq<string>, k: string)
    requires k in m && k in keys && Accounted(rules, m, done, k)
    requires forall x | x in keys :: (x in r <==> x in done) && (x in done ==> r[x] == done[x])
    requires k !in done ==> forall h | h in done && CollapsesInto(rules, m, k, h) :: h in keys
    ensures Accounted(rules, m, r, k)
  {
    if k !in r {
      var h :| h in done && CollapsesInto(rules, m, k, h)
        && rules.hinted(done[h]) && rules.lineage(done[h]) == rules.lineage(m[k]) && Kept(m[k], done[h]);
      assert r[h] == done[h];
    }
  }

  lemma EveryKeyAccounted(rules: Rules, m: ByKey, lineages: seq<string>, groups: seq<seq<string>>, k: string)
    requires MergeEnriches(rules) && Groups(rules, m, lineages, groups) && k in m
    ensures Accounted(rules, m, ReconcileAll(rules, m, groups), k)
  {
    GroupsAreDisjoint(rules, m, lineages, groups);
    var i := GroupOfKey(rules, m, lineages, groups, k);
    GroupAccounts(rules, m, groups[i], lineages[i], k);
    var r, done := ReconcileAll(rules, m, groups), GroupDone(rules, m, groups[i]);
    forall x | x in groups[i] ensures (x in r <==> x in done) && (x in done ==> r[x] == done[x]) {
      EachGroupAlone(rules, m, groups, i, x);
    }
    forall h | h in done && CollapsesInto(rules, m, k, h) ensures h in groups[i] {
      assert h in GroupKeys(rules, m, lineages[i]);
    }
    AccountedTransfers(rules, m, done, r, groups[i], k);
  }

  lemma EveryKeyKept(rules: Rules, m: ByKey, lineages: seq<string>, groups: seq<seq<string>>, k: string)
    requires MergeEnriches(rules) && AllHarmless(rules, m) && Groups(rules, m, lineages, groups)
    requires k in m && OwnKey(rules, m, k)
    ensures OwnKey(rules, ReconcileAll(rules, m, groups), k)
  {
    GroupsAreDisjoint(rules, m, lineages, groups);
    var i := GroupOfKey(rules, m, lineages, groups, k);
    GroupKeepsKey(rules, m, groups[i], k);
    EachGroupAlone(rules, m, groups, i, k);
  }

  lemma {:induction false} NoNewKeys(rules: Rules, m: ByKey, groups: seq<seq<string>>, k: string)
    requires k in ReconcileAll(rules, m, groups)
    ensures k in m
    decreases |groups|
  {
    if groups != [] {
      var before := ReconcileAll(rules, m, groups[..|groups| - 1]);
      if k in before { NoNewKeys(rules, m, groups[..|groups| - 1], k); }
    }
  }

  /**
   * Nothing either decoder saw is lost, on any chain: what is kept under a key is its winner, enriched;
   * a winner that is gone had no path and collapsed, metadata included, into the single path-hinted
   * event of its lineage. No key is invented.
   */
  lemma ReconcileLosesNothing(chain: Chain, es: seq<Decoded>, r: ByKey)
    requires Reconciled(RulesOf(chain), Winners(RulesOf(chain), es), r)
    ensures forall e | e in es :: CoverageKey(chain, e) in Winners(RulesOf(chain), es)
    ensures forall k | k in Winners(RulesOf(chain), es) :: Accounted(RulesOf(chain), Winners(RulesOf(chain), es), r, k)
    ensures forall k | k in r :: k in Winners(RulesOf(chain), es)
  {
    var rules := RulesOf(chain);
    var m := Winners(rules, es);
    var lineages, groups :| Groups(rules, m, lineages, groups) && r == ReconcileAll(rules, m, groups);
    WinnersDomain(rules, es);
    MergeEnrichesOn(chain);
    forall e | e in es ensures CoverageKey(chain, e) in m { assert rules.key(e) == CoverageKey(chain, e); }
    forall k | k in m ensures Accounted(rules, m, r, k) { EveryKeyAccounted(rules, m, lineages, groups, k); }
    forall k | k in r ensures k in m { NoNewKeys(rules, m, groups, k); }
  }

  /** No pathless event spells out an instruction path; on EVM chains and Solana none can. */
  ghost predicate PathlessSpellNoPath(chain: Chain, es: seq<Decoded>) {
    forall e | e in es && !HasPathHint(chain, e) :: SpellsNoPath(chain, e)
  }

  lemma SpellsNoPathOffBTC(chain: Chain, es: seq<Decoded>)
    requires IsEVMChain(chain) || chain == Solana
    ensures PathlessSpellNoPath(chain, es)
  {
  }

  lemma WinnersHarmless(chain: Chain, es: seq<Decoded>)
    requires PathlessSpellNoPath(chain, es)
    ensures AllHarmless(RulesOf(chain), Winners(RulesOf(chain), es))
  {
    var rules := RulesOf(chain);
    var m := Winners(rules, es);
    WinnersDomain(rules, es);
    forall k | k in m && !rules.hinted(m[k]) ensures Harmless(rules, m[k]) { HarmlessOn(chain, m[k]); }
  }

  /** Then every event sits under its own key. */
  lemma ReconcileKeepsKeys(chain: Chain, es: seq<Decoded>, r: ByKey, k: string)
    requires PathlessSpellNoPath(chain, es)
    requires Reconciled(RulesOf(chain), Winners(RulesOf(chain), es), r) && k in r
    ensures CoverageKey(chain, r[k]) == k
  {
    var rules := RulesOf(chain);
    var m := Winners(rules, es);
    var lineages, groups :| Groups(rules, m, lineages, groups) && r == ReconcileAll(rules, m, groups);
    WinnersDomain(rules, es);
    WinnersHarmless(chain, es);
    MergeEnrichesOn(chain);
    NoNewKeys(rules, m, groups, k);
    EveryKeyKept(rules, m, lineages, groups, k);
    assert rules.key(r[k]) == CoverageKey(chain, r[k]);
  }

  /** Some output event is of the lineage of the event's winner and carries the winner's metadata. */
  ghost predicate Represented(chain: Chain, es: seq<Decoded>, out: seq<Decoded>, e: Decoded) {
    exists o, w | o in out && w in es ::
      CoverageKey(chain, w) == CoverageKey(chain, e) && LineageKey(chain, o) == LineageKey(chain, w) && Kept(w, o)
  }

  lemma Listed(r: ByKey, keys: seq<string>, out: seq<Decoded>, k: string)
    requires SortedByKey(r, keys, out) && k in r
    ensures r[k] in out
  {
    assert k in keys;
    var i :| 0 <= i < |keys| && keys[i] == k;
    assert out[i] == r[k];
  }

  lemma RepresentedBy(chain: Chain, es: seq<Decoded>, r: ByKey, keys: seq<string>, out: seq<Decoded>, e: Decoded)
    requires SortedByKey(r, keys, out) && e in es
    requires CoverageKey(chain, e) in Winners(RulesOf(chain), es)
    requires Accounted(RulesOf(chain), Winners(RulesOf(chain), es), r, CoverageKey(chain, e))
    ensures Represented(chain, es, out, e)
  {
    var rules, k := RulesOf(chain), CoverageKey(chain, e);
    var m := Winners(rules, es);
    WinnersDomain(rules, es);
    var h := k;
    if k !in r {
      h :| h in r && rules.lineage(r[h]) == rules.lineage(m[k]) && Kept(m[k], r[h]);
    }
    Listed(r, keys, out, h);
    assert rules.key(m[k]) == CoverageKey(chain, m[k]);
    assert rules.lineage(r[h]) == LineageKey(chain, r[h]) && rules.lineage(m[k]) == LineageKey(chain, m[k]);
  }

  /** The input event an output event is, apart from added metadata. */
  lemma StemOf(chain: Chain, es: seq<Decoded>, out: seq<Decoded>, o: Decoded) returns (w: Decoded)
    requires MergeResult(RulesOf(chain), es, out) && o in out
    ensures w in es && Enriched(w, o)
  {
    var rules := RulesOf(chain);
    var m := Winners(rules, es);
    var r, keys :| Reconciled(rules, m, r) && SortedByKey(r, keys, out);
    ReconcileLosesNothing(chain, es, r);
    WinnersDomain(rules, es);
    var i :| 0 <= i < |out| && out[i] == o;
    assert keys[i] in keys && keys[i] in r && r[keys[i]] == o;
    assert Accounted(rules, m, r, keys[i]) && m[keys[i]] in es;
    w := m[keys[i]];
  }

  /**
   * The whole merge on any chain, BTC included: every event is represented in the output, and every
   * output event is one of the inputs with metadata added.
   */
  lemma NoEventLost(chain: Chain, es: seq<Decoded>, out: seq<Decoded>)
    requires MergeResult(RulesOf(chain), es, out)
    ensures forall e | e in es :: Represented(chain, es, out, e)
    ensures forall o | o in out :: exists w | w in es :: Enriched(w, o)
  {
    var rules := RulesOf(chain);
    var m := Winners(rules, es);
    var r, keys :| Reconciled(rules, m, r) && SortedByKey(r, keys, out);
    ReconcileLosesNothing(chain, es, r);
    WinnersDomain(rules, es);
    forall e | e in es ensures Represented(chain, es, out, e) { RepresentedBy(chain, es, r, keys, out, e); }
    forall o | o in out ensures exists w | w in es :: Enriched(w, o) {
      var w := StemOf(chain, es, out, o);
    }
  }

  /** The output covers the event: under its own key, or through the path-hinted event its winner collapsed into. */
  ghost predicate Covers(chain: Chain, es: seq<Decoded>, out: seq<Decoded>, e: Decoded) {
    || (exists o | o in out :: CoverageKey(chain, o) == CoverageKey(chain, e))
    || (exists o, w | o in out && w in es ::
          && CoverageKey(chain, w) == CoverageKey(chain, e) && !HasPathHint(chain, w)
          && HasPathHint(chain, o) && LineageKey(chain, o) == LineageKey(chain, w) && Kept(w, o))
  }

  /**
   * When no pathless event spells out an instruction path, which is always so on EVM chains and Solana,
   * every coverage key survives or its pathless winner collapsed, and no output has a key of its own making.
   */
  lemma NoCoverageLost(chain: Chain, es: seq<Decoded>, out: seq<Decoded>)
    requires PathlessSpellNoPath(chain, es)
    requires MergeResult(RulesOf(chain), es, out)
    ensures forall e | e in es :: Covers(chain, es, out, e)
    ensures forall o | o in out :: exists e | e in es :: CoverageKey(chain, e) == CoverageKey(chain, o)
  {
    var rules := RulesOf(chain);
    var m := Winners(rules, es);
    var r, keys :| Reconciled(rules, m, r) && SortedByKey(r, keys, out);
    ReconcileLosesNothing(chain, es, r);
    WinnersDomain(rules, es);
    forall k | k in r ensures CoverageKey(chain, r[k]) == k { ReconcileKeepsKeys(chain, es, r, k); }
    forall e | e in es ensures Covers(chain, es, out, e) { CoveredBy(chain, es, r, keys, out, e); }
    forall o | o in out ensures exists e | e in es :: CoverageKey(chain, e) == CoverageKey(chain, o) {
      var i :| 0 <= i < |out| && out[i] == o;
      assert keys[i] in keys && keys[i] in r && r[keys[i]] == o;
      assert rules.key(m[keys[i]]) == CoverageKey(chain, m[keys[i]]);
    }
  }

  lemma CoveredBy(chain: Chain, es: seq<Decoded>, r: ByKey, keys: seq<string>, out: seq<Decoded>, e: Decoded)
    requires SortedByKey(r, keys, out) && e in es
    requires CoverageKey(chain, e) in Winners(RulesOf(chain), es)
    requires Accounted(RulesOf(chain), Winners(RulesOf(chain), es), r, CoverageKey(chain, e))
    requires forall k | k in r :: CoverageKey(chain, r[k]) == k
    ensures Covers(chain, es, out, e)
  {
    var rules, k := RulesOf(chain), CoverageKey(chain, e);
    var m := Winners(rules, es);
    WinnersDomain(rules, es);
    if k in r {
      Listed(r, keys, out, k);
    } else {
      var h :| h in r && CollapsesInto(rules, m, k, h) && rules.hinted(r[h])
        && rules.lineage(r[h]) == rules.lineage(m[k]) && Kept(m[k], r[h]);
      Listed(r, keys, out, h);
      var o, w := r[h], m[k];
      assert rules.key(w) == CoverageKey(chain, w) && rules.hinted(w) == HasPathHint(chain, w);
      assert rules.hinted(o) == HasPathHint(chain, o);
      assert rules.lineage(o) == LineageKey(chain, o) && rules.lineage(w) == LineageKey(chain, w);
    }
  }

  // ----- BTC -----

  /** Of the parts of a coverage key only the path depends on the metadata. */
  lemma KeyFollowsPath(chain: Chain, e: Decoded, metadata: map<string, string>)
    ensures CoverageKey(chain, e.(metadata := metadata)) == CoverageKey(chain, e) <==>
            DecodedPath(chain, e.(metadata := metadata)) == DecodedPath(chain, e)
  {
    var c := e.(metadata := metadata);
    var rest := "|" + AddressOrTrimmed(chain, e.address) + "|" + AddressOrTrimmed(chain, e.contract) + "|" +
      CategoryOf(e);
    var address, asset := AddressOrTrimmed(chain, e.address), AddressOrTrimmed(chain, e.contract);
    KeyIsPathAndRest(DecodedPath(chain, e), address, asset, CategoryOf(e));
    KeyIsPathAndRest(DecodedPath(chain, c), address, asset, CategoryOf(e));
    SuffixCancels(DecodedPath(chain, c), DecodedPath(chain, e), rest);
  }

  lemma KeyIsPathAndRest(path: string, address: string, asset: string, category: string)
    ensures path + "|" + address + "|" + asset + "|" + category == path + ("|" + address + "|" + asset + "|" + category)
  {
  }

  /** The metadata keys a path is read from, first come first served. */
  function PathKey(i: int): string {
    if i == 0 then "event_path" else if i == 1 then "instruction_path" else "solana_event_path"
  }

  /** The text a path key has once `b` is merged into `a`: the keeper's own, if it has the key at all. */
  function Joined(a: map<string, string>, b: map<string, string>, key: string): string {
    if key in a then a[key] else Lookup(b, key)
  }

  /** The first path key whose text parses is missing from the keeper: the alias supplies the path. */
  ghost predicate AliasDecides(parse: PathParser, a: map<string, string>, b: map<string, string>, i: int) {
    && 0 <= i < 3 && PathKey(i) !in a && ParsedAt(parse, b, PathKey(i)).Some?
    && forall j | 0 <= j < i :: parse(Joined(a, b, PathKey(j))).None?
  }

  lemma FirstPathJoined(parse: PathParser, a: map<string, string>, b: map<string, string>)
    ensures
      var e, f, g := parse(Joined(a, b, PathKey(0))), parse(Joined(a, b, PathKey(1))), parse(Joined(a, b, PathKey(2)));
      FirstPath(parse, b + a) == if e.Some? then e else if f.Some? then f else g
  {
    forall key ensures Lookup(b + a, key) == Joined(a, b, key) {
    }
  }

  lemma AliasPath(parse: PathParser, a: map<string, string>, b: map<string, string>, i: int)
    requires AliasDecides(parse, a, b, i)
    ensures FirstPath(parse, b + a) == ParsedAt(parse, b, PathKey(i))
  {
    FirstPathJoined(parse, a, b);
    assert Joined(a, b, PathKey(i)) == Lookup(b, PathKey(i));
    assert i > 0 ==> parse(Joined(a, b, PathKey(0))).None?;
    assert i > 1 ==> parse(Joined(a, b, PathKey(1))).None?;
  }

  lemma KeeperPath(parse: PathParser, a: map<string, string>, b: map<string, string>)
    requires parse("") == None && forall i :: !AliasDecides(parse, a, b, i)
    ensures FirstPath(parse, b + a) == FirstPath(parse, a)
  {
    FirstPathJoined(parse, a, b);
    assert !AliasDecides(parse, a, b, 0) && !AliasDecides(parse, a, b, 1) && !AliasDecides(parse, a, b, 2);
    forall key | key in a ensures Joined(a, b, key) == Lookup(a, key) {
    }
  }

  function PathAt(at: Option<(int, int)>, outer: int, inner: int): string {
    match at
    case Some((o, i)) => InstructionPath(o, i)
    case None => InstructionPath(outer, inner)
  }

  /** Whatever the alias supplies spells the path the keeper already has. */
  ghost predicate AliasAgrees(parse: PathParser, a: Decoded, b: Decoded) {
    forall i | AliasDecides(parse, a.metadata, b.metadata, i) ::
      PathAt(ParsedAt(parse, b.metadata, PathKey(i)), a.outer, a.inner) ==
        PathAt(FirstPath(parse, a.metadata), a.outer, a.inner)
  }

  lemma PathStaysExactly(parse: PathParser, a: Decoded, b: Decoded)
    requires parse("") == None
    ensures AliasAgrees(parse, a, b) <==>
            PathAt(FirstPath(parse, b.metadata + a.metadata), a.outer, a.inner) ==
            PathAt(FirstPath(parse, a.metadata), a.outer, a.inner)
  {
    forall i | AliasDecides(parse, a.metadata, b.metadata, i)
      ensures FirstPath(parse, b.metadata + a.metadata) == ParsedAt(parse, b.metadata, PathKey(i))
    {
      AliasPath(parse, a.metadata, b.metadata, i);
    }
    if forall i :: !AliasDecides(parse, a.metadata, b.metadata, i) { KeeperPath(parse, a.metadata, b.metadata); }
  }

  /** `parse` is how metadata paths are read, and it reads nothing from an empty text. */
  ghost predicate Reads(parse: PathParser) {
    parse("") == None && forall metadata :: MetadataPath(metadata) == FirstPath(parse, metadata)
  }

  lemma ParsePathReads()
    ensures Reads(ParsePath)
  {
    NoPathInNothing();
  }

  lemma BTCPathIs(chain: Chain, e: Decoded)
    requires chain == BTC
    ensures DecodedPath(chain, e) == PathAt(MetadataPath(e.metadata), e.outer, e.inner)
  {
  }

  lemma BTCPathsAgree(parse: PathParser, chain: Chain, e: Decoded, metadata: map<string, string>)
    requires chain == BTC && Reads(parse)
    ensures DecodedPath(chain, e.(metadata := metadata)) == DecodedPath(chain, e) <==>
            PathAt(FirstPath(parse, metadata), e.outer, e.inner) ==
            PathAt(FirstPath(parse, e.metadata), e.outer, e.inner)
  {
    BTCPathIs(chain, e.(metadata := metadata));
    BTCPathIs(chain, e);
    assert MetadataPath(metadata) == FirstPath(parse, metadata) &&
      MetadataPath(e.metadata) == FirstPath(parse, e.metadata);
  }

  lemma BTCMergeFollowsPath(chain: Chain, a: Decoded, b: Decoded)
    requires chain == BTC
    ensures CoverageKey(chain, Merge(chain, a, b)) == CoverageKey(chain, a) <==>
            DecodedPath(chain, a.(metadata := b.metadata + a.metadata)) == DecodedPath(chain, a)
  {
    BTCMergeIs(chain, a, b);
    KeyFollowsPath(chain, a, b.metadata + a.metadata);
  }

  lemma BTCKeyFollowsPath(parse: PathParser, chain: Chain, a: Decoded, b: Decoded)
    requires chain == BTC && Reads(parse)
    ensures CoverageKey(chain, Merge(chain, a, b)) == CoverageKey(chain, a) <==>
            PathAt(FirstPath(parse, b.metadata + a.metadata), a.outer, a.inner) ==
            PathAt(FirstPath(parse, a.metadata), a.outer, a.inner)
  {
    BTCMergeFollowsPath(chain, a, b);
    BTCPathsAgree(parse, chain, a, b.metadata + a.metadata);
  }

  lemma BTCKeyStaysExactly(parse: PathParser, chain: Chain, a: Decoded, b: Decoded)
    requires chain == BTC && Reads(parse)
    ensures CoverageKey(chain, Merge(chain, a, b)) == CoverageKey(chain, a) <==> AliasAgrees(parse, a, b)
  {
    BTCKeyFollowsPath(parse, chain, a, b);
    PathStaysExactly(parse, a, b);
  }

  /**
   * On BTC merging keeps the keeper's coverage key if and only if the first path key that parses is the
   * keeper's own, or the alias's entry that comes first spells the path the keeper already has.
   */
  lemma BTCMergeKeepsKeyExactly(chain: Chain, a: Decoded, b: Decoded)
    requires chain == BTC
    ensures CoverageKey(chain, Merge(chain, a, b)) == CoverageKey(chain, a) <==> AliasAgrees(ParsePath, a, b)
  {
    ParsePathReads();
    BTCKeyStaysExactly(ParsePath, chain, a, b);
  }

  lemma BTCMergeIs(chain: Chain, a: Decoded, b: Decoded)
    requires chain == BTC
    ensures Merge(chain, a, b) == a.(metadata := b.metadata + a.metadata)
  {
    if |b.metadata| == 0 { assert b.metadata + a.metadata == a.metadata; }
  }

  /** A keeper whose output path is no instruction path, and an alias of it that spells one out. */
  ghost predicate KeeperAndAlias(a: Decoded, b: Decoded, direct: string, path: string) {
    && a.metadata == map["event_path" := direct]
    && b == a.(metadata := map["instruction_path" := path])
  }

  lemma FirstPathsOfPair(parse: PathParser, a: Decoded, b: Decoded, direct: string, path: string)
    requires KeeperAndAlias(a, b, direct, path)
    requires parse("") == None && parse(direct) == None && parse(path).Some?
    ensures FirstPath(parse, a.metadata) == None
    ensures FirstPath(parse, b.metadata) == parse(path)
    ensures FirstPath(parse, b.metadata + a.metadata) == parse(path)
  {
    assert Lookup(a.metadata, "event_path") == direct && Lookup(a.metadata, "instruction_path") == "";
    assert Lookup(a.metadata, "solana_event_path") == "";
    assert Lookup(b.metadata, "event_path") == "" && Lookup(b.metadata, "instruction_path") == path;
    var both := b.metadata + a.metadata;
    assert Lookup(both, "event_path") == direct && Lookup(both, "instruction_path") == path;
  }

  lemma PairHints(chain: Chain, a: Decoded, b: Decoded, direct: string, path: string)
    requires chain == BTC && KeeperAndAlias(a, b, direct, path) && TrimSpace(direct) != ""
    ensures HasPathHint(chain, a) && !HasPathHint(chain, b)
  {
    TrimEmpty();
    assert Lookup(a.metadata, "event_path") == direct && Lookup(b.metadata, "event_path") == "";
  }

  lemma PairMovesOn(
    parse: PathParser, chain: Chain, a: Decoded, b: Decoded, direct: string, path: string, at: (int, int))
    requires chain == BTC && KeeperAndAlias(a, b, direct, path) && Reads(parse)
    requires parse(direct) == None && parse(path) == Some(at)
    requires InstructionPath(at.0, at.1) != InstructionPath(a.outer, a.inner)
    ensures CoverageKey(chain, b) != CoverageKey(chain, a)
    ensures CoverageKey(chain, Merge(chain, a, b)) != CoverageKey(chain, a)
  {
    FirstPathsOfPair(parse, a, b, direct, path);
    BTCPathsAgree(parse, chain, a, b.metadata);
    KeyFollowsPath(chain, a, b.metadata);
    BTCKeyFollowsPath(parse, chain, a, b);
  }

  /** Such a pair is of one lineage and merges, and the keeper moves to the alias's key. */
  lemma PairMoves(chain: Chain, a: Decoded, b: Decoded, direct: string, path: string, at: (int, int))
    requires chain == BTC && KeeperAndAlias(a, b, direct, path)
    requires ParsePath(direct) == None && ParsePath(path) == Some(at)
    requires InstructionPath(at.0, at.1) != InstructionPath(a.outer, a.inner)
    ensures LineageKey(chain, a) == LineageKey(chain, b)
    ensures CoverageKey(chain, b) != CoverageKey(chain, a)
    ensures CoverageKey(chain, Merge(chain, a, b)) != CoverageKey(chain, a)
  {
    LineageIgnoresMetadata(chain, a, b.metadata);
    ParsePathReads();
    PairMovesOn(ParsePath, chain, a, b, direct, path, at);
  }

  lemma DirectText() returns (direct: string)
    ensures direct == "vin:0" && TrimSpace(direct) != "" && ParsePath(direct) == None
  {
    direct := "vin:0";
    assert Trimmed(direct);
    NoBarNoPath(direct);
  }

  /**
   * Concrete pairs: one transfer decoded with the output path "vin:0" and again with an instruction
   * path such as "outer:3|inner:4". They are of one lineage, the first is path-hinted and the second is
   * not, and the merged event no longer has the coverage key it is kept under.
   */
  lemma BTCMergeMovesKeeper(chain: Chain, outer: char, inner: char) returns (a: Decoded, b: Decoded)
    requires chain == BTC && '1' <= outer <= '9' && '0' <= inner <= '9'
    ensures a == Decoded("TRANSFER", "", "", "addr", "btc", "", "", "", 8, "", "5", 0, 0, map["event_path" := "vin:0"])
    ensures b == a.(metadata := map["instruction_path" := PathText(outer, inner)])
    ensures HasPathHint(chain, a) && !HasPathHint(chain, b) && LineageKey(chain, a) == LineageKey(chain, b)
    ensures CoverageKey(chain, a) != CoverageKey(chain, b)
    ensures CoverageKey(chain, Merge(chain, a, b)) != CoverageKey(chain, a)
  {
    var direct := DirectText();
    var path, zero := PathText(outer, inner), 0;
    DigitPath(outer, inner);
    NoPathInNothing();
    a := Decoded("TRANSFER", "", "", "addr", "btc", "", "", "", 8, "", "5", zero, zero, map["event_path" := direct]);
    b := a.(metadata := map["instruction_path" := path]);
    PathsDiffer(Digit(outer), Digit(inner), zero, zero);
    PairHints(chain, a, b, direct, path);
    PairMoves(chain, a, b, direct, path, (Digit(outer), Digit(inner)));
  }

  lemma PairReconciled(rules: Rules, ka: string, a: Decoded, kb: string, b: Decoded, r: ByKey)
    requires ka != kb && rules.hinted(a) && !rules.hinted(b) && rules.lineage(a) == rules.lineage(b)
    requires Reconciled(rules, map[ka := a, kb := b], r)
    ensures r == map[ka := rules.merge(a, b)]
  {
    var m := map[ka := a, kb := b];
    var lineages, groups :| Groups(rules, m, lineages, groups) && r == ReconcileAll(rules, m, groups);
    OneLineage(rules, m, ka, kb, lineages, groups);
    TwoCollapse(rules, ka, a, kb, b, groups[0]);
    assert groups[..0] == [] && ReconcileAll(rules, m, []) == m;
  }

  lemma OneListed(r: ByKey, keys: seq<string>, out: seq<Decoded>, k: string, e: Decoded)
    requires r == map[k := e] && SortedByKey(r, keys, out)
    ensures out == [e]
  {
    OneKey(keys, k);
  }

  lemma PairMerges(rules: Rules, a: Decoded, b: Decoded, out: seq<Decoded>)
    requires rules.hinted(a) && !rules.hinted(b) && rules.key(a) != rules.key(b) && rules.lineage(a) == rules.lineage(b)
    requires MergeResult(rules, [a, b], out)
    ensures out == [rules.merge(a, b)]
  {
    TwoWinners(rules, a, b);
    var m := map[rules.key(a) := a, rules.key(b) := b];
    var r, keys :| Reconciled(rules, m, r) && SortedByKey(r, keys, out);
    PairReconciled(rules, rules.key(a), a, rules.key(b), b, r);
    OneListed(r, keys, out, rules.key(a), rules.merge(a, b));
  }

  /** And the merge of such a pair is the one merged event. */
  lemma PairCollapses(chain: Chain, a: Decoded, b: Decoded, out: seq<Decoded>)
    requires HasPathHint(chain, a) && !HasPathHint(chain, b) && CoverageKey(chain, a) != CoverageKey(chain, b)
    requires LineageKey(chain, a) == LineageKey(chain, b) && MergeResult(RulesOf(chain), [a, b], out)
    ensures out == [Merge(chain, a, b)]
  {
    RulesApplied(chain, a, b);
    PairMerges(RulesOf(chain), a, b, out);
  }

  lemma OneKey(keys: seq<string>, k: string)
    requires Sorted(keys, Less) && forall x :: x in keys <==> x == k
    ensures keys == [k]
  {
    LessIsStrict();
    assert k in keys;
    if |keys| > 1 {
      assert keys[0] in keys && keys[1] in keys && Less(keys[0], keys[1]);
      LessIrreflexive(k);
    }
  }

  lemma TwoKeys(keys: seq<string>, k: string, l: string)
    requires k != l && Sorted(keys, Less) && forall x :: x in keys <==> x == k || x == l
    ensures keys == [k, l] || keys == [l, k]
  {
    LessIsStrict();
    assert k in keys && l in keys;
    forall i | 0 <= i < |keys| ensures keys[i] == k || keys[i] == l { assert keys[i] in keys; }
    if |keys| > 2 {
      assert Less(keys[0], keys[1]) && Less(keys[1], keys[2]) && Less(keys[0], keys[2]);
      LessIrreflexive(k);
      LessIrreflexive(l);
    }
  }

  lemma OneLineage(rules: Rules, m: ByKey, ka: string, kb: string, lineages: seq<string>, groups: seq<seq<string>>)
    requires ka != kb && m.Keys == {ka, kb} && rules.lineage(m[ka]) == rules.lineage(m[kb])
    requires Groups(rules, m, lineages, groups)
    ensures |groups| == 1 && (groups[0] == [ka, kb] || groups[0] == [kb, ka])
  {
    var l := rules.lineage(m[ka]);
    assert LineagesOf(rules, m) == {l};
    OneKey(lineages, l);
    assert GroupKeys(rules, m, l) == {ka, kb};
    TwoKeys(groups[0], ka, kb);
  }

  lemma RulesApplied(chain: Chain, a: Decoded, b: Decoded)
    ensures RulesOf(chain).key(a) == CoverageKey(chain, a) && RulesOf(chain).key(b) == CoverageKey(chain, b)
    ensures RulesOf(chain).hinted(a) == HasPathHint(chain, a) && RulesOf(chain).hinted(b) == HasPathHint(chain, b)
    ensures RulesOf(chain).lineage(a) == LineageKey(chain, a) && RulesOf(chain).lineage(b) == LineageKey(chain, b)
    ensures RulesOf(chain).merge(a, b) == Merge(chain, a, b)
  {
  }

  lemma TwoWinners(rules: Rules, a: Decoded, b: Decoded)
    requires rules.key(a) != rules.key(b)
    ensures Winners(rules, [a, b]) == map[rules.key(a) := a, rules.key(b) := b]
  {
    assert [a, b][..1] == [a] && [a][..0] == [];
    assert Winners(rules, [a]) == map[rules.key(a) := a];
  }

  lemma OnePartition(rules: Rules, m: ByKey, k: string)
    requires k in m
    ensures HintedOf(rules, m, [k]) == if rules.hinted(m[k]) then [k] else []
    ensures PathlessOf(rules, m, [k]) == if rules.hinted(m[k]) then [] else [k]
  {
    assert [k][..0] == [];
  }

  lemma TwoPartition(rules: Rules, m: ByKey, x: string, y: string)
    requires x in m && y in m && rules.hinted(m[x]) != rules.hinted(m[y])
    ensures HintedOf(rules, m, [x, y]) == [if rules.hinted(m[x]) then x else y]
    ensures PathlessOf(rules, m, [x, y]) == [if rules.hinted(m[x]) then y else x]
  {
    OnePartition(rules, m, x);
    assert [x, y][..1] == [x];
  }

  lemma OneMerge(rules: Rules, m: ByKey, keeper: Decoded, k: string)
    requires k in m
    ensures MergeAll(rules, m, keeper, [k]) == rules.merge(keeper, m[k])
  {
    assert [k][..0] == [];
  }

  lemma TwoCollapse(rules: Rules, ka: string, a: Decoded, kb: string, b: Decoded, keys: seq<string>)
    requires ka != kb && rules.hinted(a) && !rules.hinted(b) && (keys == [ka, kb] || keys == [kb, ka])
    ensures GroupDone(rules, map[ka := a, kb := b], keys) == map[ka := rules.merge(a, b)]
  {
    var m := map[ka := a, kb := b];
    TwoPartition(rules, m, ka, kb);
    TwoPartition(rules, m, kb, ka);
    assert HintedOf(rules, m, keys) == [ka] && PathlessOf(rules, m, keys) == [kb];
    OneMerge(rules, m, a, kb);
    assert Members([kb]) == {kb};
  }
}
