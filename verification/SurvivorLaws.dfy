/** Which of several events with one id survives canonicalization. */
module SurvivorLaws {
  import opened Ledger
  import opened Text
  import opened EventCanon
  import SolanaCanon

  // ----- EVM chains and BTC -----

  /** `x` comes first by action, then contract, then counterparty. */
  predicate Ahead(x: ChainEvent, o: ChainEvent) {
    || Less(x.action, o.action)
    || (&& x.action == o.action
        && (|| Less(x.contract, o.contract)
            || (x.contract == o.contract && Less(x.counterparty, o.counterparty))))
  }

  lemma ReplacementIsAhead(x: ChainEvent, kept: ChainEvent, last: ChainEvent)
    ensures !Ahead(x, kept) && Replaces(kept, last) ==> !Ahead(x, last)
    ensures !Replaces(kept, last) ==> !Ahead(last, kept)
    ensures !Ahead(x, x)
  {
    Strict(kept.action, last.action, x.action);
    Strict(kept.contract, last.contract, x.contract);
    Strict(kept.counterparty, last.counterparty, x.counterparty);
    LessIrreflexive(x.action);
    LessIrreflexive(x.contract);
    LessIrreflexive(x.counterparty);
  }

  /** Whatever the deltas, no event of an id comes before the one that is kept. */
  lemma {:induction false} FirstIsKept(xs: seq<ChainEvent>, x: ChainEvent)
    requires x in xs
    ensures x.id in Collect(xs) && !Ahead(x, Collect(xs)[x.id])
    decreases |xs|
  {
    var init, last := xs[..|xs| - 1], xs[|xs| - 1];
    assert x in init || x == last;
    if x in init { FirstIsKept(init, x); }
    if x.id in Collect(init) { ReplacementIsAhead(x, Collect(init)[x.id], last); }
    ReplacementIsAhead(x, x, last);
  }

  /** Among events that agree on all of that and whose deltas are numbers, the smallest delta survives. */
  lemma SmallestDeltaSurvives(xs: seq<ChainEvent>, out: seq<ChainEvent>, o: ChainEvent, x: ChainEvent)
    requires Uniform(xs) && SortedValues(Collect(xs), out) && o in out && x in xs && x.id == o.id
    requires x.action == o.action && x.contract == o.contract && x.counterparty == o.counterparty
    requires Parses(x.delta) && Parses(o.delta)
    ensures ParseDecimal(TrimSpace(o.delta)).value <= ParseDecimal(TrimSpace(x.delta)).value
  {
    CollectKeeps(xs);
    assert !Replaces(Collect(xs)[IdOf(x)], x);
  }

  // ----- Solana -----

  /** An outer-level event before an inner one, and a lower inner index before a higher one. */
  predicate Nearer(x: SolanaCanon.Candidate, c: SolanaCanon.Candidate) {
    || (x.fromOuter && !c.fromOuter)
    || (x.fromOuter == c.fromOuter && x.originalInner < c.originalInner)
  }

  lemma ReplacementIsNearer(x: SolanaCanon.Candidate, kept: SolanaCanon.Candidate, last: SolanaCanon.Candidate)
    requires kept.event.activity != Fee && last.event.activity != Fee
    ensures !Nearer(x, kept) && SolanaCanon.ReplacesSolana(kept, last) ==> !Nearer(x, last)
    ensures !SolanaCanon.ReplacesSolana(kept, last) ==> !Nearer(last, kept)
  {
  }

  /** Of the candidates of a non-fee id the one nearest to the instruction's outer level survives. */
  lemma {:induction false} NearestIsKept(cs: seq<SolanaCanon.Candidate>, x: SolanaCanon.Candidate)
    requires x in cs && forall c | c in cs && c.event.id == x.event.id :: c.event.activity != Fee
    ensures x.event.id in SolanaCanon.CollectSolana(cs)
    ensures !Nearer(x, SolanaCanon.CollectSolana(cs)[x.event.id])
    decreases |cs|
  {
    var init, last := cs[..|cs| - 1], cs[|cs| - 1];
    var m, id := SolanaCanon.CollectSolana(init), x.event.id;
    assert forall c :: c in cs <==> c in init || c == last;
    SolanaCanon.CollectMembers(init);
    if x in init { NearestIsKept(init, x); }
    if id in m {
      assert SolanaCanon.CandidateId(m[id]) == id && m[id] in cs;
      if last.event.id == id { ReplacementIsNearer(x, m[id], last); }
    }
  }
}
