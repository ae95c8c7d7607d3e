/** What coverage keys and lineages separate, and the merge of two decoded results said of the events' fields. */
module CoverageFields {
  import opened Sums
  import opened Ledger
  import opened Text
  import opened Identity
  import opened InstructionPaths
  import opened EventCanon
  import opened Coverage
  import opened CoverageLaws
  import FeeLaws

  // ----- Texts joined by bars -----

  predicate BarFree(s: string) {
    '|' !in s
  }

  lemma LastBar(p: string, q: string, p': string, q': string)
    requires BarFree(q) && BarFree(q') && p + "|" + q == p' + "|" + q'
    ensures p == p' && q == q'
  {
    var s := p + "|" + q;
    assert s[|p|] == '|' && s[|p'|] == '|';
    assert forall i | |p| < i < |s| :: s[i] == q[i - |p| - 1] && q[i - |p| - 1] in q;
    assert forall i | |p'| < i < |s| :: s[i] == q'[i - |p'| - 1] && q'[i - |p'| - 1] in q';
    assert |p| == |p'|;
    assert p == s[..|p|] && p' == s[..|p|];
    assert q == s[|p| + 1..] && q' == s[|p| + 1..];
  }

  lemma FirstBar(p: string, q: string, p': string, q': string)
    requires BarFree(p) && BarFree(p') && p + ("|" + q) == p' + ("|" + q')
    ensures p == p' && q == q'
  {
    var s := p + ("|" + q);
    assert s[|p|] == '|' && s[|p'|] == '|';
    assert forall i | 0 <= i < |p| :: s[i] == p[i] && p[i] in p;
    assert forall i | 0 <= i < |p'| :: s[i] == p'[i] && p'[i] in p';
    assert |p| == |p'|;
    assert p == s[..|p|] && p' == s[..|p|];
    assert q == s[|p| + 1..] && q' == s[|p| + 1..];
  }

  // ----- Coverage keys -----

  /** Address, contract and category of the event contain no bar, as no address and no category does. */
  predicate Separable(chain: Chain, e: Decoded) {
    && BarFree(AddressOrTrimmed(chain, e.address)) && BarFree(AddressOrTrimmed(chain, e.contract))
    && BarFree(CategoryOf(e))
  }

  /** The events are about the same address, contract and category. */
  predicate SameSubject(chain: Chain, e: Decoded, f: Decoded) {
    && AddressOrTrimmed(chain, e.address) == AddressOrTrimmed(chain, f.address)
    && AddressOrTrimmed(chain, e.contract) == AddressOrTrimmed(chain, f.contract)
    && CategoryOf(e) == CategoryOf(f)
  }

  lemma FourParts(p: string, a: string, c: string, t: string, p': string, a': string, c': string, t': string)
    requires BarFree(a) && BarFree(c) && BarFree(t) && BarFree(a') && BarFree(c') && BarFree(t')
    requires p + "|" + a + "|" + c + "|" + t == p' + "|" + a' + "|" + c' + "|" + t'
    ensures p == p' && a == a' && c == c' && t == t'
  {
    LastBar(p + "|" + a + "|" + c, t, p' + "|" + a' + "|" + c', t');
    LastBar(p + "|" + a, c, p' + "|" + a', c');
    LastBar(p, a, p', a');
  }

  /** Two events share a coverage key exactly if path, address, contract and category are equal. */
  lemma SameKeyExactly(chain: Chain, e: Decoded, f: Decoded)
    requires Separable(chain, e) && Separable(chain, f)
    ensures CoverageKey(chain, e) == CoverageKey(chain, f) <==>
            DecodedPath(chain, e) == DecodedPath(chain, f) && SameSubject(chain, e, f)
  {
    if CoverageKey(chain, e) == CoverageKey(chain, f) {
      FourParts(DecodedPath(chain, e), AddressOrTrimmed(chain, e.address), AddressOrTrimmed(chain, e.contract),
                CategoryOf(e),
                DecodedPath(chain, f), AddressOrTrimmed(chain, f.address), AddressOrTrimmed(chain, f.contract),
                CategoryOf(f));
    }
  }

  // ----- Lineages -----

  lemma TrimmedStays(s: string)
    ensures TrimSpace(TrimSpace(s)) == TrimSpace(s)
  {
    assert Trimmed(TrimSpace(s));
  }

  lemma TrimmedAddress(chain: Chain, s: string, trimmed: string)
    requires trimmed == TrimSpace(s) == TrimSpace(trimmed)
    ensures CanonicalAddressIdentity(chain, trimmed) == CanonicalAddressIdentity(chain, s)
  {
  }

  lemma TrimTwice(chain: Chain, s: string)
    ensures AddressOrTrimmed(chain, TrimSpace(s)) == AddressOrTrimmed(chain, s)
  {
    TrimmedStays(s);
    TrimmedAddress(chain, s, TrimSpace(s));
  }

  function LineageText(t: string, a: string, c: string, p: string, d: string): string {
    t + "|" + a + "|" + c + "|" + p + "|" + d
  }

  lemma Regroup(t: string, a: string, c: string, p: string, d: string)
    ensures LineageText(t, a, c, p, d) == t + ("|" + (a + ("|" + (c + ("|" + (p + ("|" + d)))))))
  {
  }

  lemma FiveParts(t: string, a: string, c: string, p: string, d: string,
                  t': string, a': string, c': string, p': string, d': string)
    requires BarFree(t) && BarFree(a) && BarFree(c) && BarFree(t') && BarFree(a') && BarFree(c')
    requires LineageText(t, a, c, p, d) == LineageText(t', a', c', p', d')
    ensures t == t' && a == a' && c == c'
    ensures BarFree(p) && BarFree(p') ==> p == p' && d == d'
  {
    Regroup(t, a, c, p, d);
    Regroup(t', a', c', p', d');
    FirstBar(t, a + ("|" + (c + ("|" + (p + ("|" + d))))), t', a' + ("|" + (c' + ("|" + (p' + ("|" + d'))))));
    FirstBar(a, c + ("|" + (p + ("|" + d))), a', c' + ("|" + (p' + ("|" + d'))));
    FirstBar(c, p + ("|" + d), c', p' + ("|" + d'));
    if BarFree(p) && BarFree(p') { FirstBar(p, d, p', d'); }
  }

  /** The amount of the event as its lineage sees it: a fee is compared by its debit. */
  function LineageDelta(e: Decoded): string {
    if IsFeeCategory(CategoryOf(e)) then FeeDelta(TrimSpace(e.delta)) else TrimSpace(e.delta)
  }

  lemma LineageIs(chain: Chain, e: Decoded)
    ensures LineageKey(chain, e) ==
            LineageText(CategoryOf(e), AddressOrTrimmed(chain, e.address), AddressOrTrimmed(chain, e.contract),
                        AddressOrTrimmed(chain, e.counterparty), LineageDelta(e))
  {
    TrimTwice(chain, e.address);
    TrimTwice(chain, e.contract);
    TrimTwice(chain, e.counterparty);
  }

  predicate SameTransfer(chain: Chain, e: Decoded, f: Decoded) {
    && AddressOrTrimmed(chain, e.counterparty) == AddressOrTrimmed(chain, f.counterparty)
    && LineageDelta(e) == LineageDelta(f)
  }

  /** Events of one lineage are about one subject, and agree on counterparty and amount. */
  lemma SameLineageMeans(chain: Chain, e: Decoded, f: Decoded)
    requires Separable(chain, e) && Separable(chain, f) && LineageKey(chain, e) == LineageKey(chain, f)
    ensures SameSubject(chain, e, f)
    ensures BarFree(AddressOrTrimmed(chain, e.counterparty)) && BarFree(AddressOrTrimmed(chain, f.counterparty)) ==>
            SameTransfer(chain, e, f)
  {
    LineageIs(chain, e);
    LineageIs(chain, f);
    FiveParts(CategoryOf(e), AddressOrTrimmed(chain, e.address), AddressOrTrimmed(chain, e.contract),
              AddressOrTrimmed(chain, e.counterparty), LineageDelta(e),
              CategoryOf(f), AddressOrTrimmed(chain, f.address), AddressOrTrimmed(chain, f.contract),
              AddressOrTrimmed(chain, f.counterparty), LineageDelta(f));
  }

  // ----- The merge -----

  ghost predicate AllSeparable(chain: Chain, es: seq<Decoded>) {
    forall e | e in es :: Separable(chain, e)
  }

  lemma EnrichedSubject(chain: Chain, w: Decoded, o: Decoded)
    requires Enriched(w, o)
    ensures SameSubject(chain, w, o) && (Separable(chain, w) ==> Separable(chain, o))
  {
  }

  /** Some output event has the event's address, contract and category. */
  ghost predicate SubjectSurvives(chain: Chain, out: seq<Decoded>, e: Decoded) {
    exists o | o in out :: SameSubject(chain, e, o)
  }

  lemma RepresentedSubject(chain: Chain, es: seq<Decoded>, out: seq<Decoded>, e: Decoded)
    requires AllSeparable(chain, es) && AllSeparable(chain, out) && e in es && Represented(chain, es, out, e)
    ensures SubjectSurvives(chain, out, e)
  {
    var o, w :| o in out && w in es && CoverageKey(chain, w) == CoverageKey(chain, e)
      && LineageKey(chain, o) == LineageKey(chain, w) && Kept(w, o);
    SameKeyExactly(chain, w, e);
    SameLineageMeans(chain, o, w);
  }

  lemma RepresentedIn(chain: Chain, es: seq<Decoded>, out: seq<Decoded>, e: Decoded)
    requires MergeResult(RulesOf(chain), es, out) && e in es
    ensures Represented(chain, es, out, e)
  {
    NoEventLost(chain, es, out);
  }

  lemma OutputSeparable(chain: Chain, es: seq<Decoded>, out: seq<Decoded>)
    requires AllSeparable(chain, es) && MergeResult(RulesOf(chain), es, out)
    ensures AllSeparable(chain, out)
  {
    forall o | o in out ensures Separable(chain, o) {
      var w := StemOf(chain, es, out, o);
      EnrichedSubject(chain, w, o);
    }
  }

  /**
   * On every chain: each input event's address, contract and category are in the output, and each output
   * event has those of an input event.
   */
  lemma NoSubjectLost(chain: Chain, es: seq<Decoded>, out: seq<Decoded>)
    requires AllSeparable(chain, es) && MergeResult(RulesOf(chain), es, out)
    ensures forall e | e in es :: SubjectSurvives(chain, out, e)
    ensures forall o | o in out :: exists w | w in es :: SameSubject(chain, w, o)
  {
    OutputSeparable(chain, es, out);
    forall e | e in es ensures SubjectSurvives(chain, out, e) {
      RepresentedIn(chain, es, out, e);
      RepresentedSubject(chain, es, out, e);
    }
    forall o | o in out ensures exists w | w in es :: SameSubject(chain, w, o) {
      var w := StemOf(chain, es, out, o);
      EnrichedSubject(chain, w, o);
    }
  }

  /** `w` won for the path and subject of `e`, spelled no path, and collapsed into `o` of the same subject. */
  predicate CollapsedInto(chain: Chain, e: Decoded, w: Decoded, o: Decoded) {
    && DecodedPath(chain, w) == DecodedPath(chain, e) && SameSubject(chain, w, e)
    && !HasPathHint(chain, w) && HasPathHint(chain, o) && SameSubject(chain, w, o) && Kept(w, o)
  }

  /** The output has the event's path and subject, or the event's pathless winner collapsed into an output event. */
  ghost predicate PathSurvives(chain: Chain, es: seq<Decoded>, out: seq<Decoded>, e: Decoded) {
    || (exists o | o in out :: DecodedPath(chain, o) == DecodedPath(chain, e) && SameSubject(chain, e, o))
    || (exists o, w | o in out && w in es :: CollapsedInto(chain, e, w, o))
  }

  lemma CoveredPath(chain: Chain, es: seq<Decoded>, out: seq<Decoded>, e: Decoded)
    requires AllSeparable(chain, es) && AllSeparable(chain, out) && e in es && Covers(chain, es, out, e)
    ensures PathSurvives(chain, es, out, e)
  {
    if o :| o in out && CoverageKey(chain, o) == CoverageKey(chain, e) {
      SameKeyExactly(chain, o, e);
    } else {
      var o, w :| o in out && w in es && CoverageKey(chain, w) == CoverageKey(chain, e)
        && !HasPathHint(chain, w) && HasPathHint(chain, o)
        && LineageKey(chain, o) == LineageKey(chain, w) && Kept(w, o);
      SameKeyExactly(chain, w, e);
      SameLineageMeans(chain, o, w);
      assert CollapsedInto(chain, e, w, o);
    }
  }

  /** And, unless a pathless event spells out an instruction path, each event's path with them. */
  lemma NoPathLost(chain: Chain, es: seq<Decoded>, out: seq<Decoded>)
    requires AllSeparable(chain, es) && PathlessSpellNoPath(chain, es) && MergeResult(RulesOf(chain), es, out)
    ensures forall e | e in es :: PathSurvives(chain, es, out, e)
  {
    NoCoverageLost(chain, es, out);
    OutputSeparable(chain, es, out);
    forall e | e in es ensures PathSurvives(chain, es, out, e) { CoveredPath(chain, es, out, e); }
  }

  // ----- Winners -----

  /** A path hint comes first, then metadata entries, then populated fields, then the lesser text. */
  predicate More(hint: bool, entries: int, fields: int, text: string,
                 hint': bool, entries': int, fields': int, text': string) {
    || (hint && !hint')
    || (&& hint == hint'
        && (|| entries > entries'
            || (&& entries == entries'
                && (fields > fields' || (fields == fields' && Less(text, text'))))))
  }

  lemma MoreIsStrict(h: bool, n: int, p: int, t: string, h': bool, n': int, p': int, t': string,
                     h'': bool, n'': int, p'': int, t'': string)
    ensures !More(h, n, p, t, h, n, p, t)
    ensures More(h, n, p, t, h', n', p', t') && More(h', n', p', t', h'', n'', p'', t'') ==>
            More(h, n, p, t, h'', n'', p'', t'')
  {
    LessIrreflexive(t);
    if Less(t, t') && Less(t', t'') { LessTransitive(t, t', t''); }
  }

  /** How much an event tells. */
  predicate TellsMore(chain: Chain, e: Decoded, w: Decoded) {
    More(HasPathHint(chain, e), |e.metadata|, PopulatedFields(e), Fingerprint(chain, e),
         HasPathHint(chain, w), |w.metadata|, PopulatedFields(w), Fingerprint(chain, w))
  }

  lemma ReplacingIsTelling(chain: Chain, w: Decoded, x: Decoded)
    ensures ReplacesCoverage(chain, w, x) <==> TellsMore(chain, x, w)
  {
  }

  lemma TellingIsStrict(chain: Chain, e: Decoded, x: Decoded, w: Decoded)
    ensures !TellsMore(chain, x, x)
    ensures TellsMore(chain, e, x) && TellsMore(chain, x, w) ==> TellsMore(chain, e, w)
  {
    MoreIsStrict(HasPathHint(chain, x), |x.metadata|, PopulatedFields(x), Fingerprint(chain, x),
                 HasPathHint(chain, x), |x.metadata|, PopulatedFields(x), Fingerprint(chain, x),
                 HasPathHint(chain, x), |x.metadata|, PopulatedFields(x), Fingerprint(chain, x));
    MoreIsStrict(HasPathHint(chain, e), |e.metadata|, PopulatedFields(e), Fingerprint(chain, e),
                 HasPathHint(chain, x), |x.metadata|, PopulatedFields(x), Fingerprint(chain, x),
                 HasPathHint(chain, w), |w.metadata|, PopulatedFields(w), Fingerprint(chain, w));
  }

  function Telling(chain: Chain): (Decoded, Decoded) -> bool {
    (e, w) => TellsMore(chain, e, w)
  }

  /** What a replacement rule must do for the order `more`: a loser never has more than the winner. */
  ghost predicate Respects(beaten: (Decoded, Decoded) -> bool, more: (Decoded, Decoded) -> bool,
                           e: Decoded, w: Decoded, x: Decoded) {
    && (!more(e, w) && beaten(w, x) ==> !more(e, x))
    && (!beaten(w, x) ==> !more(x, w))
    && !more(x, x)
  }

  ghost predicate AlwaysRespects(beaten: (Decoded, Decoded) -> bool, more: (Decoded, Decoded) -> bool) {
    forall e, w, x :: Respects(beaten, more, e, w, x)
  }

  lemma {:induction false} RichestWins(rules: Rules, more: (Decoded, Decoded) -> bool, es: seq<Decoded>, e: Decoded)
    requires AlwaysRespects(rules.beaten, more) && e in es
    ensures rules.key(e) in Winners(rules, es) && !more(e, Winners(rules, es)[rules.key(e)])
    decreases |es|
  {
    var init, last := es[..|es| - 1], es[|es| - 1];
    var m, k := Winners(rules, init), rules.key(e);
    assert e in init || e == last;
    if e in init { RichestWins(rules, more, init, e); }
    if k in m { assert Respects(rules.beaten, more, e, m[k], last); }
    assert Respects(rules.beaten, more, e, e, last);
  }

  lemma LoserTellsLess(chain: Chain, e: Decoded, w: Decoded, x: Decoded)
    ensures !TellsMore(chain, e, w) && ReplacesCoverage(chain, w, x) ==> !TellsMore(chain, e, x)
    ensures !ReplacesCoverage(chain, w, x) ==> !TellsMore(chain, x, w)
    ensures !TellsMore(chain, x, x)
  {
    ReplacingIsTelling(chain, w, x);
    TellingIsStrict(chain, e, x, w);
  }

  lemma RulesRespect(chain: Chain)
    ensures AlwaysRespects(RulesOf(chain).beaten, Telling(chain))
  {
    forall e, w, x ensures Respects(RulesOf(chain).beaten, Telling(chain), e, w, x) {
      assert RulesOf(chain).beaten(w, x) == ReplacesCoverage(chain, w, x);
      LoserTellsLess(chain, e, w, x);
    }
  }

  /** No input event tells more than the winner of its key. */
  lemma WinnerTellsMost(chain: Chain, es: seq<Decoded>, e: Decoded)
    requires e in es
    ensures CoverageKey(chain, e) in Winners(RulesOf(chain), es)
    ensures !TellsMore(chain, e, Winners(RulesOf(chain), es)[CoverageKey(chain, e)])
  {
    RulesRespect(chain);
    RichestWins(RulesOf(chain), Telling(chain), es, e);
    assert RulesOf(chain).key(e) == CoverageKey(chain, e);
  }

  // ----- Instruction paths -----

  lemma {:induction false} NumberIsPlain(n: nat)
    ensures Plain(FormatNat(n)) && BarFree(FormatNat(n))
  {
    FeeLaws.FormatNatReads(n);
    var s := FormatNat(n);
    forall i | 0 <= i < |s| ensures IsPlain(s[i]) && s[i] != '|' { assert '0' <= s[i] <= '9'; }
  }

  lemma IntIsPlain(n: int)
    ensures Plain(FormatInt(n)) && BarFree(FormatInt(n)) && FormatInt(n) != ""
  {
    FeeLaws.FormatNatReads(if n < 0 then -n else n);
    NumberIsPlain(if n < 0 then -n else n);
    if n < 0 {
      var s := FormatInt(n);
      forall i | 0 <= i < |s| ensures IsPlain(s[i]) && s[i] != '|' { assert i > 0 ==> s[i] == FormatNat(-n)[i - 1]; }
    }
  }

  lemma LabelledIndex(key: string, n: int)
    requires -0x8000_0000 <= n < 0x8000_0000
    ensures IndexPart(key + ":" + FormatInt(n), key) == Some(n)
  {
    var s := key + ":" + FormatInt(n);
    assert s[..|key + ":"|] == key + ":" && s[|key + ":"|..] == FormatInt(n);
    FeeLaws.ParseFormat(n);
  }

  lemma LabelIsPlain(prefix: string, n: int)
    requires Plain(prefix) && BarFree(prefix)
    ensures Plain(prefix + FormatInt(n)) && BarFree(prefix + FormatInt(n))
  {
    IntIsPlain(n);
    var s, t := prefix + FormatInt(n), FormatInt(n);
    forall i | 0 <= i < |s| ensures IsPlain(s[i]) && s[i] != '|' {
      assert s[i] == if i < |prefix| then prefix[i] else t[i - |prefix|];
      assert i < |prefix| ==> prefix[i] in prefix;
    }
  }

  lemma LabelsArePlain()
    ensures Plain("outer:") && BarFree("outer:") && Plain("inner:") && BarFree("inner:")
  {
  }

  lemma PathParts(outer: int, inner: int)
    ensures InstructionPath(outer, inner) ==
            ("outer:" + FormatInt(Int32(outer))) + "|" + ("inner:" + FormatInt(Int32(inner)))
  {
  }

  /** A path is read back as the indices it was made of, wrapped to 32 bits. */
  lemma PathRoundTrip(outer: int, inner: int)
    ensures ParsePath(InstructionPath(outer, inner)) == Some((Int32(outer), Int32(inner)))
  {
    var p, q := "outer:" + FormatInt(Int32(outer)), "inner:" + FormatInt(Int32(inner));
    PathParts(outer, inner);
    LabelsArePlain();
    LabelIsPlain("outer:", Int32(outer));
    LabelIsPlain("inner:", Int32(inner));
    ReadPath(p, q);
    assert p == "outer" + ":" + FormatInt(Int32(outer)) && q == "inner" + ":" + FormatInt(Int32(inner));
    LabelledIndex("outer", Int32(outer));
    LabelledIndex("inner", Int32(inner));
  }

  /** Different instructions have different paths. */
  lemma PathIsInjective(outer: int, inner: int, outer': int, inner': int)
    ensures InstructionPath(outer, inner) == InstructionPath(outer', inner') <==>
            Int32(outer) == Int32(outer') && Int32(inner) == Int32(inner')
  {
    PathRoundTrip(outer, inner);
    PathRoundTrip(outer', inner');
  }

  // ----- What the rules look at -----

  /** The category, or the action where there is none, in upper case. */
  lemma CategoryMeans(e: Decoded)
    ensures TrimSpace(e.category) != "" ==> CategoryOf(e) == ToUpper(TrimSpace(e.category))
    ensures TrimSpace(e.category) == "" ==> CategoryOf(e) == ToUpper(TrimSpace(e.action))
  {
  }

  predicate Filled(s: string) {
    TrimSpace(s) != ""
  }

  /** Every text field counts once if filled, and so does a non-zero number of decimals. */
  lemma EachFieldCounts(e: Decoded)
    ensures PopulatedFields(e) - PopulatedFields(e.(category := "")) == if Filled(e.category) then 1 else 0
    ensures PopulatedFields(e) - PopulatedFields(e.(action := "")) == if Filled(e.action) then 1 else 0
    ensures PopulatedFields(e) - PopulatedFields(e.(program := "")) == if Filled(e.program) then 1 else 0
    ensures PopulatedFields(e) - PopulatedFields(e.(address := "")) == if Filled(e.address) then 1 else 0
    ensures PopulatedFields(e) - PopulatedFields(e.(contract := "")) == if Filled(e.contract) then 1 else 0
    ensures PopulatedFields(e) - PopulatedFields(e.(counterparty := "")) == if Filled(e.counterparty) then 1 else 0
    ensures PopulatedFields(e) - PopulatedFields(e.(symbol := "")) == if Filled(e.symbol) then 1 else 0
    ensures PopulatedFields(e) - PopulatedFields(e.(name := "")) == if Filled(e.name) then 1 else 0
    ensures PopulatedFields(e) - PopulatedFields(e.(delta := "")) == if Filled(e.delta) then 1 else 0
    ensures PopulatedFields(e) - PopulatedFields(e.(tokenType := "")) == if Filled(e.tokenType) then 1 else 0
    ensures PopulatedFields(e) - PopulatedFields(e.(decimals := 0)) == if e.decimals != 0 then 1 else 0
  {
    TrimEmpty();
  }

  /** Off EVM chains, and once it has a complete fee split of its own, the keeper's metadata stays as it is. */
  lemma KeeperMetadataStays(chain: Chain, preferred: map<string, string>, additional: map<string, string>)
    requires !IsEVMChain(chain) || HasFeeSplit(preferred) || !HasFeeSplit(additional)
    ensures MergedMetadata(chain, preferred, additional).Keys == preferred.Keys + additional.Keys
    ensures forall k | k in preferred :: MergedMetadata(chain, preferred, additional)[k] == preferred[k]
    ensures forall k | k in additional && k !in preferred ::
      MergedMetadata(chain, preferred, additional)[k] == additional[k]
  {
  }

  /** Otherwise the fee components of the complete split replace the keeper's, and nothing else does. */
  lemma FeeSplitIsCopied(chain: Chain, preferred: map<string, string>, additional: map<string, string>)
    requires IsEVMChain(chain) && HasFeeSplit(additional) && !HasFeeSplit(preferred)
    ensures CopiesFees(preferred, additional, MergedMetadata(chain, preferred, additional))
  {
    CopiedFees(preferred, additional);
  }

  predicate IsFilledFee(additional: map<string, string>, k: string) {
    k in additional && IsFeeComponent(k) && Filled(additional[k])
  }

  predicate CopiesFees(preferred: map<string, string>, additional: map<string, string>, merged: map<string, string>) {
    && (forall k | k in additional && IsFilledFee(additional, k) :: k in merged && merged[k] == TrimSpace(additional[k]))
    && (forall k | k in preferred && !IsFilledFee(additional, k) :: k in merged && merged[k] == preferred[k])
  }

  lemma CopiedFees(preferred: map<string, string>, additional: map<string, string>)
    ensures CopiesFees(preferred, additional, (additional + preferred) + FeeComponents(additional))
  {
    assert forall k :: k in FeeComponents(additional) <==> IsFilledFee(additional, k);
  }

  lemma DigitsAreTrimmed(body: string)
    requires body != "" && AllDigits(body)
    ensures TrimSpace(body) == body && TrimSpace("-" + body) == "-" + body
  {
    assert '0' <= body[0] <= '9' && '0' <= body[|body| - 1] <= '9';
    assert Trimmed(body) && Trimmed("-" + body);
  }

  lemma SignIsCut(body: string)
    requires body != "" && AllDigits(body)
    ensures Unsigned(body) == body && Unsigned("-" + body) == body
  {
    assert '0' <= body[0] <= '9' && ("-" + body)[1..] == body;
  }

  lemma LineageWithDelta(chain: Chain, e: Decoded, delta: string)
    ensures LineageKey(chain, e.(delta := delta)) ==
            LineageText(CategoryOf(e), AddressOrTrimmed(chain, e.address), AddressOrTrimmed(chain, e.contract),
                        AddressOrTrimmed(chain, e.counterparty), LineageDelta(e.(delta := delta)))
  {
    LineageIs(chain, e.(delta := delta));
  }

  lemma FoldedIsFee(category: string, folded: string)
    requires folded == ToLower(category)
    requires folded == "fee" || folded == "fee_execution_l2" || folded == "fee_data_l1"
    ensures IsFeeCategory(category)
  {
  }

  lemma SignlessFee(body: string)
    requires body != "" && AllDigits(body)
    ensures FeeDelta(TrimSpace(body)) == FeeDelta(TrimSpace("-" + body))
  {
    DigitsAreTrimmed(body);
    SignIsCut(body);
  }

  lemma FeeSignIgnored(e: Decoded, folded: string, body: string)
    requires folded == ToLower(CategoryOf(e))
    requires folded == "fee" || folded == "fee_execution_l2" || folded == "fee_data_l1"
    requires body != "" && AllDigits(body)
    ensures LineageDelta(e.(delta := body)) == LineageDelta(e.(delta := "-" + body))
  {
    FoldedIsFee(CategoryOf(e), folded);
    SignlessFee(body);
    assert CategoryOf(e.(delta := body)) == CategoryOf(e) == CategoryOf(e.(delta := "-" + body));
  }

  /** A fee reported as a credit and as a debit is one lineage. */
  lemma FeeSignsShareLineage(chain: Chain, e: Decoded, folded: string, body: string)
    requires folded == ToLower(CategoryOf(e))
    requires folded == "fee" || folded == "fee_execution_l2" || folded == "fee_data_l1"
    requires body != "" && AllDigits(body)
    ensures LineageKey(chain, e.(delta := body)) == LineageKey(chain, e.(delta := "-" + body))
  {
    FeeSignIgnored(e, folded, body);
    LineageWithDelta(chain, e, body);
    LineageWithDelta(chain, e, "-" + body);
  }
}
