/** Canonicalization of scanned signatures: one per identity, the newest sighting, in chain order. */
module Signatures {
  import opened Sums
  import opened Ledger
  import opened Text
  import opened Identity
  import opened KeepBest

  datatype Signature = Signature(hash: string, sequence: int, time: Option<int>)

  /** A map from hashes to canonical identities; the pipeline uses the one of its chain. */
  type IdentityMap = string -> string

  function IdentityOn(chain: Chain): IdentityMap {
    h => CanonicalSignatureIdentity(chain, h)
  }

  function HashOf(s: Signature): string {
    s.hash
  }

  /** shouldReplaceCanonicalSignature. */
  predicate Replaces(existing: Signature, incoming: Signature) {
    if existing.sequence != incoming.sequence then incoming.sequence > existing.sequence
    else if existing.time.None? && incoming.time.Some? then true
    else if existing.time.Some? && incoming.time.None? then false
    else if existing.time.Some? && incoming.time.Some? && existing.time.value != incoming.time.value then
      incoming.time.value > existing.time.value
    else Less(incoming.hash, existing.hash)
  }

  /** The sort order: sequence, then hash. */
  predicate Earlier(a: Signature, b: Signature) {
    if a.sequence != b.sequence then a.sequence < b.sequence else Less(a.hash, b.hash)
  }

  lemma EarlierIsStrict()
    ensures StrictOrder(Earlier)
  {
    forall x ensures !Earlier(x, x) { LessIrreflexive(x.hash); }
    forall x, y, z | Earlier(x, y) && Earlier(y, z) ensures Earlier(x, z) {
      if x.sequence == y.sequence == z.sequence { LessTransitive(x.hash, y.hash, z.hash); }
    }
  }

  lemma ReplacesIsOrdered(xs: seq<Signature>)
    ensures Ordered(xs, HashOf, Replaces)
  {
    forall x, y | x in xs && y in xs && Replaces(x, y) ensures !Replaces(y, x) {
      if Less(y.hash, x.hash) && Less(x.hash, y.hash) {
        LessTransitive(x.hash, y.hash, x.hash);
        LessIrreflexive(x.hash);
      }
    }
    forall x, y, z | x in xs && y in xs && z in xs && Replaces(x, y) && Replaces(y, z) ensures Replaces(x, z) {
      if Less(y.hash, x.hash) && Less(z.hash, y.hash) { LessTransitive(z.hash, y.hash, x.hash); }
    }
  }

  /** Between two sightings of one identity the replacement rule leaves no tie. */
  lemma NoTies(a: Signature, b: Signature)
    requires a.hash == b.hash && !Replaces(a, b) && !Replaces(b, a)
    ensures a == b
  {
  }

  function Admitted(identity: IdentityMap, cutoff: int, cursorIdentity: string, s: Signature): bool {
    var id := identity(s.hash);
    id != "" && !(cutoff > 0 && s.sequence > cutoff) && !(cursorIdentity != "" && id == cursorIdentity)
  }

  function Candidate(identity: IdentityMap, s: Signature): Signature {
    s.(hash := identity(s.hash))
  }

  /** The canonical sightings that take part; cutoff 0 and cursor identity "" admit everything. */
  function Candidates(
    identity: IdentityMap, sigs: seq<Signature>, cutoff: int, cursorIdentity: string): seq<Signature>
  {
    if sigs == [] then []
    else
      var init, s := sigs[..|sigs| - 1], sigs[|sigs| - 1];
      Candidates(identity, init, cutoff, cursorIdentity) +
      if Admitted(identity, cutoff, cursorIdentity, s) then [Candidate(identity, s)] else []
  }

  lemma {:induction false} CandidateMembers(
    identity: IdentityMap, sigs: seq<Signature>, cutoff: int, cursorIdentity: string, c: Signature)
    ensures c in Candidates(identity, sigs, cutoff, cursorIdentity)
       <==> exists s | s in sigs :: Admitted(identity, cutoff, cursorIdentity, s) && Candidate(identity, s) == c
    decreases |sigs|
  {
    if sigs != [] {
      var init, s := sigs[..|sigs| - 1], sigs[|sigs| - 1];
      CandidateMembers(identity, init, cutoff, cursorIdentity, c);
      assert forall x :: x in sigs <==> x in init || x == s;
    }
  }

  ghost predicate SortedValues(m: map<string, Signature>, out: seq<Signature>) {
    Sorted(out, Earlier) && forall x :: x in out <==> x.hash in m && m[x.hash] == x
  }

  /** `out` lists, in chain order, the kept sighting of every identity among the candidates. */
  ghost predicate Canonical(candidates: seq<Signature>, out: seq<Signature>) {
    exists m :: Keeps(m, candidates, HashOf, Replaces) && SortedValues(m, out)
  }

  function ValuesOf(m: map<string, Signature>): set<Signature> {
    set k | k in m :: m[k]
  }

  lemma ValuesComparable(m: map<string, Signature>, xs: seq<Signature>)
    requires Keeps(m, xs, HashOf, Replaces)
    ensures Comparable(ValuesOf(m), Earlier)
  {
    forall x, y | x in ValuesOf(m) && y in ValuesOf(m) ensures x == y || Earlier(x, y) || Earlier(y, x) {
      assert HashOf(x) == x.hash && HashOf(y) == y.hash;
      LessTotal(x.hash, y.hash);
    }
  }

  lemma MembersOfValues(m: map<string, Signature>, xs: seq<Signature>, out: seq<Signature>)
    requires Keeps(m, xs, HashOf, Replaces) && Sorted(out, Earlier)
    requires forall x :: x in out <==> x in ValuesOf(m)
    ensures SortedValues(m, out)
  {
    forall x ensures x in ValuesOf(m) <==> x.hash in m && m[x.hash] == x {
      if x in ValuesOf(m) {
        var k :| k in m && m[k] == x;
        assert HashOf(x) == k;
      }
    }
  }

  /** The values of the map, sorted by sequence and hash. */
  method Ordering(m: map<string, Signature>, ghost candidates: seq<Signature>) returns (out: seq<Signature>)
    requires Keeps(m, candidates, HashOf, Replaces)
    ensures SortedValues(m, out)
  {
    EarlierIsStrict();
    ValuesComparable(m, candidates);
    out := SortSet(ValuesOf(m), Earlier);
    MembersOfValues(m, candidates, out);
  }

  /** canonicalizeSignatures. */
  method CanonicalizeSignatures(chain: Chain, sigs: seq<Signature>) returns (out: seq<Signature>)
    ensures Canonical(Candidates(IdentityOn(chain), sigs, 0, ""), out)
  {
    var identity := IdentityOn(chain);
    var byIdentity: map<string, Signature> := map[];
    for i := 0 to |sigs|
      invariant Keeps(byIdentity, Candidates(identity, sigs[..i], 0, ""), HashOf, Replaces)
    {
      assert sigs[..i + 1][..i] == sigs[..i];
      var id := identity(sigs[i].hash);
      if id == "" { continue; }
      var candidate := sigs[i].(hash := id);
      ReplacesIsOrdered(Candidates(identity, sigs[..i], 0, "") + [candidate]);
      KeepsExtend(byIdentity, Candidates(identity, sigs[..i], 0, ""), candidate, HashOf, Replaces);
      if id !in byIdentity || Replaces(byIdentity[id], candidate) { byIdentity := byIdentity[id := candidate]; }
    }
    assert sigs[..|sigs|] == sigs;
    out := Ordering(byIdentity, Candidates(identity, sigs, 0, ""));
  }

  function CursorIdentity(identity: IdentityMap, cursor: Option<string>): string {
    if cursor.Some? then identity(cursor.value) else ""
  }

  /** filterAndCanonicalizeSignatures: cutoff, cursor and deduplication in a single pass. */
  method FilterAndCanonicalize(chain: Chain, sigs: seq<Signature>, cutoff: int, cursor: Option<string>)
    returns (out: seq<Signature>)
    ensures Canonical(Candidates(IdentityOn(chain), sigs, cutoff, CursorIdentity(IdentityOn(chain), cursor)), out)
  {
    var identity := IdentityOn(chain);
    var cursorIdentity := CursorIdentity(identity, cursor);
    var byIdentity: map<string, Signature> := map[];
    for i := 0 to |sigs|
      invariant Keeps(byIdentity, Candidates(identity, sigs[..i], cutoff, cursorIdentity), HashOf, Replaces)
    {
      assert sigs[..i + 1][..i] == sigs[..i];
      var id := identity(sigs[i].hash);
      if id == "" { continue; }
      if cutoff > 0 && sigs[i].sequence > cutoff { continue; }
      if cursorIdentity != "" && id == cursorIdentity { continue; }
      var candidate := sigs[i].(hash := id);
      ghost var before := Candidates(identity, sigs[..i], cutoff, cursorIdentity);
      ReplacesIsOrdered(before + [candidate]);
      KeepsExtend(byIdentity, before, candidate, HashOf, Replaces);
      if id !in byIdentity || Replaces(byIdentity[id], candidate) { byIdentity := byIdentity[id := candidate]; }
    }
    assert sigs[..|sigs|] == sigs;
    out := Ordering(byIdentity, Candidates(identity, sigs, cutoff, cursorIdentity));
  }

  method WithoutIdentity(identity: IdentityMap, sigs: seq<Signature>, cursorIdentity: string)
    returns (out: seq<Signature>)
    requires cursorIdentity != ""
    ensures out == Where(sigs, Survives(identity, cursorIdentity))
  {
    out := [];
    for i := 0 to |sigs|
      invariant out == Where(sigs[..i], Survives(identity, cursorIdentity))
    {
      assert sigs[..i + 1][..i] == sigs[..i];
      if identity(sigs[i].hash) == cursorIdentity { continue; }
      out := out + [sigs[i]];
    }
    assert sigs[..|sigs|] == sigs;
  }

  /** suppressBoundaryCursorSignatures: every signature with the cursor's identity goes. */
  method SuppressBoundaryCursor(chain: Chain, sigs: seq<Signature>, cursor: Option<string>)
    returns (out: seq<Signature>)
    ensures out == Where(sigs, Survives(IdentityOn(chain), CursorIdentity(IdentityOn(chain), cursor)))
  {
    var cursorIdentity := CursorIdentity(IdentityOn(chain), cursor);
    if |sigs| == 0 || cursor.None? || cursorIdentity == "" {
      WhereAll(sigs, Survives(IdentityOn(chain), cursorIdentity));
      return sigs;
    }
    out := WithoutIdentity(IdentityOn(chain), sigs, cursorIdentity);
  }

  function Survives(identity: IdentityMap, cursorIdentity: string): Signature -> bool {
    (s: Signature) => cursorIdentity == "" || identity(s.hash) != cursorIdentity
  }

  lemma {:induction false} WhereAll<T(!new)>(s: seq<T>, keep: T -> bool)
    requires forall x | x in s :: keep(x)
    ensures Where(s, keep) == s
    decreases |s|
  {
    if s != [] {
      assert forall x | x in s[..|s| - 1] :: x in s;
      assert s[|s| - 1] in s;
      WhereAll(s[..|s| - 1], keep);
    }
  }

  // ----- What a canonical list is -----

  /**
   * The canonical list is sorted by sequence and hash, has one entry per identity, invents nothing
   * and keeps for each identity the highest sequence and, at that sequence, the latest time.
   */
  lemma CanonicalMeans(
    identity: IdentityMap, sigs: seq<Signature>, cutoff: int, cursorIdentity: string, out: seq<Signature>)
    requires Canonical(Candidates(identity, sigs, cutoff, cursorIdentity), out)
    ensures Sorted(out, Earlier)
    ensures forall a, b | a in out && b in out && a.hash == b.hash :: a == b
    ensures forall c | c in out ::
      exists s | s in sigs :: Admitted(identity, cutoff, cursorIdentity, s) && Candidate(identity, s) == c
    ensures forall s | s in sigs && Admitted(identity, cutoff, cursorIdentity, s) ::
      exists c | c in out :: Newest(c, Candidate(identity, s))
  {
    var xs := Candidates(identity, sigs, cutoff, cursorIdentity);
    NothingInvented(xs, out);
    forall c | c in out
      ensures exists s | s in sigs :: Admitted(identity, cutoff, cursorIdentity, s) && Candidate(identity, s) == c
    {
      CandidateMembers(identity, sigs, cutoff, cursorIdentity, c);
    }
    forall s | s in sigs && Admitted(identity, cutoff, cursorIdentity, s)
      ensures exists c | c in out :: Newest(c, Candidate(identity, s))
    {
      CandidateMembers(identity, sigs, cutoff, cursorIdentity, Candidate(identity, s));
      NewestKept(xs, out, Candidate(identity, s));
    }
  }

  lemma NothingInvented(xs: seq<Signature>, out: seq<Signature>)
    requires Canonical(xs, out)
    ensures Sorted(out, Earlier)
    ensures forall c | c in out :: c in xs
    ensures forall a, b | a in out && b in out && a.hash == b.hash :: a == b
  {
    var m :| Keeps(m, xs, HashOf, Replaces) && SortedValues(m, out);
  }

  lemma NewestKept(xs: seq<Signature>, out: seq<Signature>, x: Signature)
    requires Canonical(xs, out) && x in xs
    ensures exists c | c in out :: Newest(c, x)
  {
    var m :| Keeps(m, xs, HashOf, Replaces) && SortedValues(m, out);
    assert HashOf(x) in m && !Replaces(m[x.hash], x);
    assert HashOf(m[x.hash]) == x.hash && m[x.hash] in out;
    assert Newest(m[x.hash], x);
  }

  /** `c` stands for the identity of `x` and is at least as new. */
  predicate Newest(c: Signature, x: Signature) {
    && c.hash == x.hash
    && c.sequence >= x.sequence
    && (c.sequence == x.sequence && x.time.Some? ==> c.time.Some? && c.time.value >= x.time.value)
  }

  lemma SameKept(m1: map<string, Signature>, xs1: seq<Signature>, m2: map<string, Signature>, xs2: seq<Signature>)
    requires Keeps(m1, xs1, HashOf, Replaces) && Keeps(m2, xs2, HashOf, Replaces)
    requires forall x :: x in xs1 <==> x in xs2
    ensures m1 == m2
  {
    KeptKeys(m1, xs1, m2, xs2, HashOf, Replaces);
    forall k | k in m1 ensures k in m2 && m1[k] == m2[k] {
      KeptAlike(m1, xs1, m2, xs2, HashOf, Replaces, k);
      assert HashOf(m1[k]) == k && HashOf(m2[k]) == k;
      NoTies(m1[k], m2[k]);
    }
  }

  /** The canonical list depends only on which candidates there are. */
  lemma CanonicalUnique(xs1: seq<Signature>, out1: seq<Signature>, xs2: seq<Signature>, out2: seq<Signature>)
    requires Canonical(xs1, out1) && Canonical(xs2, out2)
    requires forall x :: x in xs1 <==> x in xs2
    ensures out1 == out2
  {
    var m1 :| Keeps(m1, xs1, HashOf, Replaces) && SortedValues(m1, out1);
    var m2 :| Keeps(m2, xs2, HashOf, Replaces) && SortedValues(m2, out2);
    SameKept(m1, xs1, m2, xs2);
    EarlierIsStrict();
    SortedUnique(out1, out2, Earlier);
  }

  /** The order in which the node reports signatures, and repeated reports, make no difference. */
  lemma OrderInvariant(
    identity: IdentityMap, sigs1: seq<Signature>, sigs2: seq<Signature>, cutoff: int, cursorIdentity: string,
    out1: seq<Signature>, out2: seq<Signature>)
    requires forall s :: s in sigs1 <==> s in sigs2
    requires Canonical(Candidates(identity, sigs1, cutoff, cursorIdentity), out1)
    requires Canonical(Candidates(identity, sigs2, cutoff, cursorIdentity), out2)
    ensures out1 == out2
  {
    var xs1, xs2 := Candidates(identity, sigs1, cutoff, cursorIdentity),
      Candidates(identity, sigs2, cutoff, cursorIdentity);
    forall x ensures x in xs1 <==> x in xs2 {
      CandidateMembers(identity, sigs1, cutoff, cursorIdentity, x);
      CandidateMembers(identity, sigs2, cutoff, cursorIdentity, x);
    }
    CanonicalUnique(xs1, out1, xs2, out2);
  }

  // ----- One pass against three -----

  ghost predicate Idempotent(identity: IdentityMap, sigs: seq<Signature>) {
    forall s | s in sigs :: identity(identity(s.hash)) == identity(s.hash)
  }

  function Within(cutoff: int): Signature -> bool {
    (s: Signature) => !(cutoff > 0 && s.sequence > cutoff)
  }

  lemma CutoffCandidates(identity: IdentityMap, sigs: seq<Signature>, cutoff: int, cursorIdentity: string, c: Signature)
    ensures c in Candidates(identity, sigs, cutoff, cursorIdentity)
       <==> c in Candidates(identity, Where(sigs, Within(cutoff)), 0, "")
            && !(cursorIdentity != "" && c.hash == cursorIdentity)
  {
    var within := Where(sigs, Within(cutoff));
    CandidateMembers(identity, sigs, cutoff, cursorIdentity, c);
    CandidateMembers(identity, within, 0, "", c);
    forall s ensures s in within <==> s in sigs && Within(cutoff)(s) {
      WhereMembers(sigs, Within(cutoff), s);
    }
  }

  /** Dropping the cursor's identity from the map drops its candidates. */
  lemma KeepsWithout(m: map<string, Signature>, xs: seq<Signature>, ys: seq<Signature>, id: string)
    requires Keeps(m, xs, HashOf, Replaces)
    requires forall x :: x in ys <==> x in xs && !(id != "" && x.hash == id)
    ensures Keeps(if id == "" then m else m - {id}, ys, HashOf, Replaces)
  {
    forall x | x in ys ensures x in xs && HashOf(x) == x.hash {
    }
  }

  /**
   * The single pass equals filtering by cutoff, canonicalizing, and then suppressing the cursor,
   * for every input whose identities are stable under a second canonicalization.
   */
  lemma SinglePassIsThreePasses(
    identity: IdentityMap, sigs: seq<Signature>, cutoff: int, cursor: Option<string>, full: seq<Signature>,
    onePass: seq<Signature>)
    requires Idempotent(identity, sigs)
    requires Canonical(Candidates(identity, Where(sigs, Within(cutoff)), 0, ""), full)
    requires Canonical(Candidates(identity, sigs, cutoff, CursorIdentity(identity, cursor)), onePass)
    ensures onePass == Where(full, Survives(identity, CursorIdentity(identity, cursor)))
  {
    var id := CursorIdentity(identity, cursor);
    var keep := Survives(identity, id);
    var within := Where(sigs, Within(cutoff));
    var xs, ys := Candidates(identity, within, 0, ""), Candidates(identity, sigs, cutoff, id);
    var m :| Keeps(m, xs, HashOf, Replaces) && SortedValues(m, full);
    forall x ensures x in ys <==> x in xs && !(id != "" && x.hash == id) {
      CutoffCandidates(identity, sigs, cutoff, id, x);
    }
    KeepsWithout(m, xs, ys, id);
    var m' := if id == "" then m else m - {id};
    WhereSorted(full, keep, Earlier);
    forall x ensures x in Where(full, keep) <==> x.hash in m' && m'[x.hash] == x {
      WhereMembers(full, keep, x);
      if x in full { StableHash(identity, sigs, within, cutoff, x); }
    }
    assert SortedValues(m', Where(full, keep));
    CanonicalUnique(ys, Where(full, keep), ys, onePass);
  }

  lemma StableHash(identity: IdentityMap, sigs: seq<Signature>, within: seq<Signature>, cutoff: int, x: Signature)
    requires Idempotent(identity, sigs) && within == Where(sigs, Within(cutoff))
    requires x in Candidates(identity, within, 0, "")
    ensures identity(x.hash) == x.hash
  {
    CandidateMembers(identity, within, 0, "", x);
    var s :| s in within && Candidate(identity, s) == x;
    WhereMembers(sigs, Within(cutoff), s);
  }

  /** Off BTC every input is stable; on BTC exactly the inputs whose bodies are all settled. */
  lemma StableInputs(chain: Chain, sigs: seq<Signature>)
    ensures Idempotent(IdentityOn(chain), sigs) <==> chain != BTC || forall s | s in sigs :: Settled(BTCBody(s.hash))
  {
    forall s | s in sigs
      ensures Stable(chain, s.hash) <==> chain != BTC || Settled(BTCBody(s.hash))
    {
      if chain != BTC { IdentityIdempotent(chain, s.hash); } else { BTCIdempotentExactly(s.hash); }
    }
  }

  lemma {:induction false} KeptExists(xs: seq<Signature>)
    ensures exists m :: Keeps(m, xs, HashOf, Replaces)
    decreases |xs|
  {
    if xs == [] {
      assert Keeps(map[], xs, HashOf, Replaces);
    } else {
      var init, x := xs[..|xs| - 1], xs[|xs| - 1];
      KeptExists(init);
      var m :| Keeps(m, init, HashOf, Replaces);
      ReplacesIsOrdered(init + [x]);
      KeepsExtend(m, init, x, HashOf, Replaces);
      assert init + [x] == xs;
    }
  }

  lemma CanonicalExists(xs: seq<Signature>)
    ensures exists out :: Canonical(xs, out)
  {
    KeptExists(xs);
    var m :| Keeps(m, xs, HashOf, Replaces);
    EarlierIsStrict();
    ValuesComparable(m, xs);
    SortedExists(ValuesOf(m), Earlier);
    var out :| Sorted(out, Earlier) && forall x :: x in out <==> x in ValuesOf(m);
    MembersOfValues(m, xs, out);
    assert Canonical(xs, out);
  }

  /** Whatever the cutoff and the cursor, the single pass and the three passes give the same list. */
  ghost predicate PassesAgree(identity: IdentityMap, sigs: seq<Signature>) {
    forall cutoff, cursor, full, onePass ::
      && Canonical(Candidates(identity, Where(sigs, Within(cutoff)), 0, ""), full)
      && Canonical(Candidates(identity, sigs, cutoff, CursorIdentity(identity, cursor)), onePass)
      ==> onePass == Where(full, Survives(identity, CursorIdentity(identity, cursor)))
  }

  lemma Represented(identity: IdentityMap, sigs: seq<Signature>, s: Signature, full: seq<Signature>)
    returns (c: Signature)
    requires s in sigs && identity(s.hash) != "" && Canonical(Candidates(identity, sigs, 0, ""), full)
    ensures c in full && c.hash == identity(s.hash)
  {
    CanonicalMeans(identity, sigs, 0, "", full);
    assert Admitted(identity, 0, "", s);
    c :| c in full && Newest(c, Candidate(identity, s));
  }

  lemma CursorAbsent(identity: IdentityMap, sigs: seq<Signature>, id: string, out: seq<Signature>, c: Signature)
    requires id != "" && Canonical(Candidates(identity, sigs, 0, id), out) && c.hash == id
    ensures c !in out
  {
    CanonicalMeans(identity, sigs, 0, id, out);
  }

  /** An unstable signature is dropped by one form and kept by the other when it is itself the cursor. */
  lemma UnstableDiffers(identity: IdentityMap, sigs: seq<Signature>, s: Signature)
    requires s in sigs && identity(s.hash) != "" && identity(identity(s.hash)) != identity(s.hash)
    ensures !PassesAgree(identity, sigs)
  {
    var id := CursorIdentity(identity, Some(s.hash));
    CanonicalExists(Candidates(identity, Where(sigs, Within(0)), 0, ""));
    CanonicalExists(Candidates(identity, sigs, 0, id));
    var full :| Canonical(Candidates(identity, Where(sigs, Within(0)), 0, ""), full);
    var onePass :| Canonical(Candidates(identity, sigs, 0, id), onePass);
    WhereMembers(sigs, Within(0), s);
    var c := Represented(identity, Where(sigs, Within(0)), s, full);
    CursorAbsent(identity, sigs, id, onePass, c);
    WhereMembers(full, Survives(identity, id), c);
    assert onePass != Where(full, Survives(identity, id));
  }

  /** The single pass is equivalent to the three passes exactly when every admissible identity is stable. */
  lemma SinglePassIsExact(identity: IdentityMap, sigs: seq<Signature>)
    requires identity("") == ""
    ensures PassesAgree(identity, sigs) <==> Idempotent(identity, sigs)
  {
    if Idempotent(identity, sigs) {
      forall cutoff, cursor, full, onePass |
        && Canonical(Candidates(identity, Where(sigs, Within(cutoff)), 0, ""), full)
        && Canonical(Candidates(identity, sigs, cutoff, CursorIdentity(identity, cursor)), onePass)
        ensures onePass == Where(full, Survives(identity, CursorIdentity(identity, cursor)))
      {
        SinglePassIsThreePasses(identity, sigs, cutoff, cursor, full, onePass);
      }
    } else {
      var s :| s in sigs && identity(identity(s.hash)) != identity(s.hash);
      UnstableDiffers(identity, sigs, s);
    }
  }
}
