/** What the watermark guarantees about scanned signatures: within a job, and over runs of ticks and crashes. */
module ScanRuns {
  import opened Sums
  import opened KeepBest
  import opened LedgerSteps
  import opened Signatures
  import opened BlockScan

  /** The stored watermark, and the signatures that have been ingested. */
  datatype Progress = Progress(watermark: Option<int>, ingested: set<Signature>)

  /** The signatures of a list that decode; the normalizer isolates and drops the others. */
  function Decoded(sigs: seq<Signature>, decodes: Signature -> bool): set<Signature> {
    set s | s in sigs && decodes(s)
  }

  /** The ingester commits a batch: what decoded is ingested and the watermark rises to the batch's cursor. */
  function Commit(p: Progress, b: RawBatch, decodes: Signature -> bool): Progress {
    Progress(Advanced(p.watermark, NewCursor(b, decodes).sequence), p.ingested + Decoded(b.signatures, decodes))
  }

  /** The first `k` batches of a job commit in order. */
  function AfterBatches(p: Progress, batches: seq<RawBatch>, decodes: Signature -> bool, k: nat): Progress
    requires k <= |batches|
    decreases k
  {
    if k == 0 then p else AfterBatches(Commit(p, batches[0], decodes), batches[1..], decodes, k - 1)
  }

  /** How many signatures the first `k` chunks hold. */
  function Cut(sigs: seq<Signature>, maxBatch: nat, k: nat): (n: nat)
    requires maxBatch > 0
    ensures n <= |sigs| && (k > 0 && sigs != [] ==> n > 0)
    decreases |sigs|
  {
    if k == 0 then 0 else if |sigs| <= maxBatch then |sigs| else maxBatch + Cut(sigs[maxBatch..], maxBatch, k - 1)
  }

  predicate NotAbove(w: Option<int>, n: int) {
    w.Some? ==> w.value <= n
  }

  // ----- The state after a prefix of the chunks -----

  ghost predicate IngestedUpTo(p: Progress, sigs: seq<Signature>, decodes: Signature -> bool, cut: nat, q: Progress)
    requires cut <= |sigs|
  {
    q.ingested == p.ingested + Decoded(sigs[..cut], decodes)
  }

  /** The watermark is at least as high as everything that raises it. */
  ghost predicate AtLeast(sigs: seq<Signature>, decodes: Signature -> bool, cut: nat, w0: Option<int>, w: int)
    requires 0 < cut <= |sigs|
  {
    && NotAbove(w0, w)
    && (forall s | s in sigs[..cut] && decodes(s) :: s.sequence <= w)
    && (cut == |sigs| ==> sigs[|sigs| - 1].sequence <= w)
  }

  /** The watermark is one of the positions that can set it. */
  ghost predicate Attained(
    job: Job, sigs: seq<Signature>, decodes: Signature -> bool, cut: nat, w0: Option<int>, w: int)
    requires 0 < cut <= |sigs|
  {
    || w0 == Some(w)
    || w == job.start - 1
    || (exists s | s in sigs[..cut] :: decodes(s) && s.sequence == w)
    || (cut == |sigs| && w == sigs[|sigs| - 1].sequence)
  }

  /** Where a job stands once its first `k` chunks have committed. */
  ghost predicate PrefixState(
    job: Job, sigs: seq<Signature>, maxBatch: nat, decodes: Signature -> bool, p: Progress, k: nat, q: Progress)
    requires maxBatch > 0 && sigs != [] && 0 < k <= |Chunks(job, sigs, maxBatch)|
  {
    var cut := Cut(sigs, maxBatch, k);
    && IngestedUpTo(p, sigs, decodes, cut, q)
    && (k == |Chunks(job, sigs, maxBatch)| <==> cut == |sigs|)
    && q.watermark.Some?
    && AtLeast(sigs, decodes, cut, p.watermark, q.watermark.value)
    && Attained(job, sigs, decodes, cut, p.watermark, q.watermark.value)
  }

  lemma FirstChunkCut(job: Job, sigs: seq<Signature>, maxBatch: nat, k: nat)
    requires 0 < maxBatch < |sigs| && 0 < k
    ensures Cut(sigs, maxBatch, k) == maxBatch + Cut(sigs[maxBatch..], maxBatch, k - 1)
    ensures |Chunks(job, sigs, maxBatch)| == 1 + |Chunks(job, sigs[maxBatch..], maxBatch)|
    ensures |Chunks(job, sigs[maxBatch..], maxBatch)| >= 1
  {
  }

  lemma FirstChunkLaw(job: Job, sigs: seq<Signature>, maxBatch: nat, decodes: Signature -> bool, p: Progress)
    requires maxBatch > 0 && sigs != [] && |Chunks(job, sigs, maxBatch)| >= 1
    ensures PrefixState(job, sigs, maxBatch, decodes, p, 1, Commit(p, Chunks(job, sigs, maxBatch)[0], decodes))
  {
    var b := Chunks(job, sigs, maxBatch)[0];
    if |sigs| <= maxBatch {
      assert sigs[..|sigs|] == sigs;
    } else {
      assert b.signatures == sigs[..maxBatch];
      FirstChunkCut(job, sigs, maxBatch, 1);
    }
    CursorIsHighest(Cursor(b.cursor, b.sequence), b.signatures, decodes);
  }

  lemma DecodedSplit(a: seq<Signature>, decodes: Signature -> bool, n: nat, m: nat)
    requires n + m <= |a|
    ensures Decoded(a[..n], decodes) + Decoded(a[n..][..m], decodes) == Decoded(a[..n + m], decodes)
    ensures forall s :: s in a[..n + m] <==> s in a[..n] || s in a[n..][..m]
  {
    assert a[..n + m] == a[..n] + a[n..][..m];
  }

  lemma IngestedChain(
    p: Progress, q: Progress, r: Progress, sigs: seq<Signature>, decodes: Signature -> bool, n: nat, m: nat)
    requires n + m <= |sigs| && IngestedUpTo(p, sigs, decodes, n, q) && IngestedUpTo(q, sigs[n..], decodes, m, r)
    ensures IngestedUpTo(p, sigs, decodes, n + m, r)
  {
    DecodedSplit(sigs, decodes, n, m);
  }

  lemma AtLeastChain(
    sigs: seq<Signature>, decodes: Signature -> bool, n: nat, m: nat, w0: Option<int>, w1: int, w2: int)
    requires 0 < n < |sigs| && 0 < m <= |sigs| - n
    requires AtLeast(sigs, decodes, n, w0, w1) && AtLeast(sigs[n..], decodes, m, Some(w1), w2)
    ensures AtLeast(sigs, decodes, n + m, w0, w2)
  {
    DecodedSplit(sigs, decodes, n, m);
    assert sigs[n..][|sigs| - n - 1] == sigs[|sigs| - 1];
  }

  lemma AttainedChain(
    job: Job, sigs: seq<Signature>, decodes: Signature -> bool, n: nat, m: nat, w0: Option<int>, w1: int, w2: int)
    requires 0 < n < |sigs| && 0 < m <= |sigs| - n
    requires Attained(job, sigs, decodes, n, w0, w1) && Attained(job, sigs[n..], decodes, m, Some(w1), w2)
    ensures Attained(job, sigs, decodes, n + m, w0, w2)
  {
    DecodedSplit(sigs, decodes, n, m);
    assert sigs[n..][|sigs| - n - 1] == sigs[|sigs| - 1];
  }

  /** After any number of chunks, whatever the signatures, their decoding and the state before. */
  lemma {:induction false} PrefixLaw(
    job: Job, sigs: seq<Signature>, maxBatch: nat, decodes: Signature -> bool, p: Progress, k: nat)
    requires maxBatch > 0 && sigs != [] && 0 < k <= |Chunks(job, sigs, maxBatch)|
    ensures PrefixState(job, sigs, maxBatch, decodes, p, k, AfterBatches(p, Chunks(job, sigs, maxBatch), decodes, k))
    decreases k
  {
    var batches := Chunks(job, sigs, maxBatch);
    var q := Commit(p, batches[0], decodes);
    FirstChunkLaw(job, sigs, maxBatch, decodes, p);
    if k == 1 {
      assert AfterBatches(q, batches[1..], decodes, 0) == q;
    } else {
      var rest := sigs[maxBatch..];
      assert batches[1..] == Chunks(job, rest, maxBatch);
      FirstChunkCut(job, sigs, maxBatch, 1);
      PrefixLaw(job, rest, maxBatch, decodes, q, k - 1);
      ChainPrefix(job, sigs, maxBatch, decodes, p, q, k, AfterBatches(q, batches[1..], decodes, k - 1));
    }
  }

  lemma ChainPrefix(
    job: Job, sigs: seq<Signature>, maxBatch: nat, decodes: Signature -> bool, p: Progress, q: Progress, k: nat,
    r: Progress)
    requires 0 < maxBatch < |sigs| && 1 < k <= |Chunks(job, sigs, maxBatch)|
    requires PrefixState(job, sigs, maxBatch, decodes, p, 1, q)
    requires k - 1 <= |Chunks(job, sigs[maxBatch..], maxBatch)|
    requires PrefixState(job, sigs[maxBatch..], maxBatch, decodes, q, k - 1, r)
    ensures PrefixState(job, sigs, maxBatch, decodes, p, k, r)
  {
    FirstChunkCut(job, sigs, maxBatch, 1);
    FirstChunkCut(job, sigs, maxBatch, k);
    var m := Cut(sigs[maxBatch..], maxBatch, k - 1);
    IngestedChain(p, q, r, sigs, decodes, maxBatch, m);
    AtLeastChain(sigs, decodes, maxBatch, m, p.watermark, q.watermark.value, r.watermark.value);
    AttainedChain(job, sigs, decodes, maxBatch, m, p.watermark, q.watermark.value, r.watermark.value);
  }

  // ----- One job -----

  /** The signatures of a job: in chain order and within its range. */
  ghost predicate InRange(job: Job, sigs: seq<Signature>) {
    Sorted(sigs, Earlier) && forall i | 0 <= i < |sigs| :: job.start <= sigs[i].sequence <= job.end
  }

  lemma InOrder(sigs: seq<Signature>, i: nat, j: nat)
    requires Sorted(sigs, Earlier) && i <= j < |sigs|
    ensures sigs[i].sequence <= sigs[j].sequence
  {
    if i < j { assert Earlier(sigs[i], sigs[j]); }
  }

  /** No signature of a prefix lies above the last one of the prefix. */
  lemma PrefixBound(sigs: seq<Signature>, cut: nat, s: Signature)
    requires Sorted(sigs, Earlier) && 0 < cut <= |sigs| && s in sigs[..cut]
    ensures s.sequence <= sigs[cut - 1].sequence
  {
    var i :| 0 <= i < cut && sigs[..cut][i] == s;
    InOrder(sigs, i, cut - 1);
  }

  /**
   * After any prefix of its chunks, every scanned signature strictly below the watermark is in a
   * committed chunk, and exactly the decoding ones of those chunks are ingested. After the last chunk
   * the watermark is the newest signature's block, or the end of the range if the scan found nothing.
   */
  lemma JobLaw(job: Job, sigs: seq<Signature>, maxBatch: nat, decodes: Signature -> bool, p: Progress, k: nat)
    requires maxBatch > 0 && InRange(job, sigs) && NotAbove(p.watermark, job.start)
    requires k <= |Batches(job, sigs, maxBatch)|
    ensures
      var q, cut := AfterBatches(p, Batches(job, sigs, maxBatch), decodes, k), Cut(sigs, maxBatch, k);
      && (forall s | s in sigs && q.watermark.Some? && s.sequence < q.watermark.value :: s in sigs[..cut])
      && q.ingested == p.ingested + Decoded(sigs[..cut], decodes)
      && (k == |Batches(job, sigs, maxBatch)| ==>
            && cut == |sigs|
            && q.watermark == if sigs == [] then Advanced(p.watermark, job.end) else Some(sigs[|sigs| - 1].sequence))
  {
    var q, cut := AfterBatches(p, Batches(job, sigs, maxBatch), decodes, k), Cut(sigs, maxBatch, k);
    if sigs == [] {
      assert Decoded(sigs[..cut], decodes) == {};
      if k > 0 { SentinelCommit(job, maxBatch, decodes, p); }
    } else if k > 0 {
      PrefixLaw(job, sigs, maxBatch, decodes, p, k);
      PrefixWatermark(job, sigs, decodes, cut, p.watermark, q.watermark.value);
      forall i | cut - 1 <= i < |sigs| ensures sigs[cut - 1].sequence <= sigs[i].sequence { InOrder(sigs, cut - 1, i); }
      forall s | s in sigs && s.sequence < q.watermark.value ensures s in sigs[..cut] {
        var i :| 0 <= i < |sigs| && sigs[i] == s;
        assert i < cut;
        assert sigs[..cut][i] == s;
      }
    } else {
      assert Decoded(sigs[..cut], decodes) == {};
      forall s | s in sigs ensures job.start <= s.sequence {
        var i :| 0 <= i < |sigs| && sigs[i] == s;
      }
    }
  }

  lemma PrefixWatermark(job: Job, sigs: seq<Signature>, decodes: Signature -> bool, cut: nat, w0: Option<int>, w: int)
    requires InRange(job, sigs) && 0 < cut <= |sigs| && NotAbove(w0, job.start)
    requires AtLeast(sigs, decodes, cut, w0, w) && Attained(job, sigs, decodes, cut, w0, w)
    ensures w <= sigs[cut - 1].sequence
    ensures cut == |sigs| ==> w == sigs[|sigs| - 1].sequence
  {
    forall s | s in sigs[..cut] ensures s.sequence <= sigs[cut - 1].sequence { PrefixBound(sigs, cut, s); }
    assert job.start <= sigs[cut - 1].sequence;
  }

  lemma SentinelCommit(job: Job, maxBatch: nat, decodes: Signature -> bool, p: Progress)
    requires maxBatch > 0
    ensures AfterBatches(p, Batches(job, [], maxBatch), decodes, 1) ==
      Progress(Advanced(p.watermark, job.end), p.ingested)
  {
    var b := RawBatch([], None, job.end);
    assert Decoded(b.signatures, decodes) == {};
    assert AfterBatches(Commit(p, b, decodes), [b][1..], decodes, 0) == Commit(p, b, decodes);
  }

  /**
   * The watermark does move before a job is done: once an intermediate chunk has passed the normalizer,
   * the watermark stands at the job's first block or beyond, although such chunks carry the position
   * before it.
   */
  lemma IntermediateChunkAdvances(
    job: Job, sigs: seq<Signature>, maxBatch: nat, decodes: Signature -> bool, p: Progress, k: nat)
    requires maxBatch > 0 && InRange(job, sigs) && 0 < k < |Batches(job, sigs, maxBatch)|
    requires Decodable(Batches(job, sigs, maxBatch)[0], decodes)
    ensures Batches(job, sigs, maxBatch)[0].sequence == job.start - 1
    ensures
      var w := AfterBatches(p, Batches(job, sigs, maxBatch), decodes, k).watermark;
      w.Some? && w.value > job.start - 1
  {
    PrefixLaw(job, sigs, maxBatch, decodes, p, k);
    FirstChunkCut(job, sigs, maxBatch, k);
    var s :| s in sigs[..maxBatch] && decodes(s);
    var i :| 0 <= i < maxBatch && sigs[..maxBatch][i] == s;
    assert sigs[..Cut(sigs, maxBatch, k)][i] == s;
  }

  // ----- When a stop is safe -----

  /**
   * The watermark will have passed a signature once the first `cut` ones are committed: the job is
   * done, or a decoding one of them lies in the same block or above.
   */
  ghost predicate Passed(sigs: seq<Signature>, decodes: Signature -> bool, cut: nat, s: Signature)
    requires cut <= |sigs|
  {
    cut == |sigs| || exists d | d in sigs[..cut] :: decodes(d) && s.sequence <= d.sequence
  }

  /** Every signature that will have been passed is among the committed ones and decodes. */
  ghost predicate SafeStop(sigs: seq<Signature>, decodes: Signature -> bool, cut: nat)
    requires cut <= |sigs|
  {
    forall s | s in sigs && Passed(sigs, decodes, cut, s) :: s in sigs[..cut] && decodes(s)
  }

  predicate Beyond(w: Option<int>, s: Signature) {
    w.Some? ==> w.value < s.sequence
  }

  lemma PassedExactly(
    job: Job, sigs: seq<Signature>, decodes: Signature -> bool, cut: nat, w0: Option<int>, w: int, s: Signature)
    requires InRange(job, sigs) && 0 < cut <= |sigs| && s in sigs && Beyond(w0, s)
    requires AtLeast(sigs, decodes, cut, w0, w) && Attained(job, sigs, decodes, cut, w0, w)
    ensures s.sequence <= w <==> Passed(sigs, decodes, cut, s)
  {
    var i :| 0 <= i < |sigs| && sigs[i] == s;
    InOrder(sigs, i, |sigs| - 1);
  }

  /** A scan from the block after the watermark would miss nothing of the job. */
  ghost predicate NothingLost(sigs: seq<Signature>, q: Progress) {
    forall s | s in sigs && q.watermark.Some? && s.sequence <= q.watermark.value :: s in q.ingested
  }

  lemma DecodedIsMember(sigs: seq<Signature>, decodes: Signature -> bool, cut: nat, s: Signature)
    requires cut <= |sigs|
    ensures s in Decoded(sigs[..cut], decodes) <==> s in sigs[..cut] && decodes(s)
  {
  }

  /**
   * Stopping after `k` batches loses nothing of the job if and only if the stop is safe, which is a
   * condition on the scanned list, its decoding and the chunk size alone.
   */
  lemma StopIsSafeExactly(
    job: Job, sigs: seq<Signature>, maxBatch: nat, decodes: Signature -> bool, p: Progress, k: nat)
    requires maxBatch > 0 && InRange(job, sigs) && NotAbove(p.watermark, job.start - 1)
    requires k <= |Batches(job, sigs, maxBatch)|
    requires forall s | s in sigs :: s !in p.ingested
    ensures NothingLost(sigs, AfterBatches(p, Batches(job, sigs, maxBatch), decodes, k))
       <==> SafeStop(sigs, decodes, Cut(sigs, maxBatch, k))
  {
    var q, cut := AfterBatches(p, Batches(job, sigs, maxBatch), decodes, k), Cut(sigs, maxBatch, k);
    if sigs != [] && k > 0 {
      PrefixLaw(job, sigs, maxBatch, decodes, p, k);
      forall s | s in sigs
        ensures s.sequence <= q.watermark.value <==> Passed(sigs, decodes, cut, s)
        ensures s in q.ingested <==> s in sigs[..cut] && decodes(s)
      {
        PassedExactly(job, sigs, decodes, cut, p.watermark, q.watermark.value, s);
        DecodedIsMember(sigs, decodes, cut, s);
      }
    } else if sigs != [] {
      forall s | s in sigs ensures job.start <= s.sequence {
        var i :| 0 <= i < |sigs| && sigs[i] == s;
      }
    }
  }

  /** When everything decodes, a stop between chunks is safe exactly on a block boundary. */
  lemma SafeStopIsBlockBoundary(sigs: seq<Signature>, decodes: Signature -> bool, cut: nat)
    requires Sorted(sigs, Earlier) && 0 < cut < |sigs| && forall s | s in sigs :: decodes(s)
    ensures SafeStop(sigs, decodes, cut) <==> sigs[cut - 1].sequence < sigs[cut].sequence
  {
    var last, next := sigs[cut - 1], sigs[cut];
    assert sigs[..cut][cut - 1] == last && last in sigs && next in sigs;
    NotYetCommitted(sigs, cut);
    InOrder(sigs, cut - 1, cut);
    if last.sequence < next.sequence {
      forall s | s in sigs && Passed(sigs, decodes, cut, s) ensures s in sigs[..cut] && decodes(s) {
        var i :| 0 <= i < |sigs| && sigs[i] == s;
        var d :| d in sigs[..cut] && decodes(d) && s.sequence <= d.sequence;
        PrefixBound(sigs, cut, d);
        if i >= cut { InOrder(sigs, cut, i); }
        assert sigs[..cut][i] == s;
      }
    } else {
      assert Passed(sigs, decodes, cut, next);
    }
  }

  lemma NotYetCommitted(sigs: seq<Signature>, cut: nat)
    requires Sorted(sigs, Earlier) && cut < |sigs|
    ensures sigs[cut] !in sigs[..cut]
  {
    EarlierIsStrict();
    forall i | 0 <= i < cut ensures sigs[..cut][i] != sigs[cut] { assert Earlier(sigs[i], sigs[cut]); }
  }

  /** Two signatures of one block, in chunks of one: stopping after the first loses the second. */
  lemma SameBlockSignatureLost(a: Signature, b: Signature, decodes: Signature -> bool)
    requires Earlier(a, b) && a.sequence == b.sequence == 7 && decodes(a)
    ensures
      var q := AfterBatches(Progress(Some(6), {}), Batches(Job(7, 7), [a, b], 1), decodes, 1);
      && q == Progress(Some(7), {a})
      && StartBlock(q.watermark, 7, 0) > b.sequence && b !in q.ingested
  {
    EarlierIsStrict();
    var sigs, p := [a, b], Progress(Some(6), {});
    var batches := Batches(Job(7, 7), sigs, 1);
    assert sigs[..1] == [a] && sigs[1..] == [b] && batches[0] == RawBatch([a], None, 6);
    assert [a][..0] == [];
    assert CursorAfter(Cursor(None, 6), [a], decodes).sequence == 7;
    assert AfterBatches(p, batches, decodes, 1) == Commit(p, batches[0], decodes);
    assert Decoded([a], decodes) == {a};
  }

  /** One chunk of two blocks whose second signature does not decode: the job completes and the signature is gone. */
  lemma UndecodedSignatureLost(a: Signature, b: Signature, decodes: Signature -> bool)
    requires a.sequence == 7 && b.sequence == 8 && decodes(a) && !decodes(b)
    ensures
      var q := AfterBatches(Progress(Some(6), {}), Batches(Job(7, 8), [a, b], 2), decodes, 1);
      && q == Progress(Some(8), {a})
      && StartBlock(q.watermark, 8, 0) > b.sequence && b !in q.ingested
  {
    var sigs, p := [a, b], Progress(Some(6), {});
    var batches := Batches(Job(7, 8), sigs, 2);
    assert batches == [RawBatch([a, b], Some(b.hash), 8)];
    assert sigs[..1] == [a] && [a][..0] == [];
    assert CursorAfter(Cursor(Some(b.hash), 8), [a], decodes).sequence == 8;
    assert CursorAfter(Cursor(Some(b.hash), 8), sigs, decodes).sequence == 8;
    assert AfterBatches(p, batches, decodes, 1) == Commit(p, batches[0], decodes);
    assert Decoded(sigs, decodes) == {a};
  }

  // ----- Runs of ticks and crashes -----

  /**
   * One tick: what the scan found, how it decodes, and how many of the job's batches commit before a
   * stop. A batch of which nothing decodes is refused, so it is one of the places where a tick stops;
   * the laws below do not depend on that.
   */
  datatype Tick = Tick(
    head: int, batchSize: int, maxBatch: nat, signatures: seq<Signature>, decodes: Signature -> bool, commits: nat)

  /** The scan of a range returns exactly the chain's signatures in it, in chain order. */
  ghost predicate Scans(all: set<Signature>, job: Job, sigs: seq<Signature>) {
    && Sorted(sigs, Earlier)
    && forall s :: s in sigs <==> s in all && job.start <= s.sequence <= job.end
  }

  function RangeOf(lookback: int, p: Progress, t: Tick): Option<Job> {
    NextRange(p.watermark, t.head, lookback, t.batchSize)
  }

  ghost predicate Ticked(all: set<Signature>, lookback: int, p: Progress, t: Tick, p': Progress) {
    var range := RangeOf(lookback, p, t);
    if range.None? then p' == p
    else
      && t.maxBatch > 0 && Scans(all, range.value, t.signatures)
      && var batches := Batches(range.value, t.signatures, t.maxBatch);
         t.commits <= |batches| && p' == AfterBatches(p, batches, t.decodes, t.commits)
  }

  /** The blocks after which a run answers for: those the starting watermark claims, and block 0. */
  function BaseOf(w: Option<int>): nat {
    if w.Some? && w.value > 0 then w.value else 0
  }

  /**
   * The tick leaves `s` behind: its job starts above `s`, and its first commit moves the watermark past
   * `s` all the same. Only a job without a positive watermark can do that.
   */
  predicate Skips(lookback: int, p: Progress, t: Tick, s: Signature) {
    var range := RangeOf(lookback, p, t);
    && range.Some? && t.commits > 0
    && Beyond(p.watermark, s) && s.sequence < range.value.start
    && (t.signatures == [] ==> s.sequence <= range.value.end)
  }

  /** The stop loses nothing above `base`. */
  ghost predicate SafeStopAbove(base: int, sigs: seq<Signature>, decodes: Signature -> bool, cut: nat)
    requires cut <= |sigs|
  {
    forall s | s in sigs && base < s.sequence && Passed(sigs, decodes, cut, s) :: s in sigs[..cut] && decodes(s)
  }

  /** The tick has nothing to scan, or it skips nothing and ends in a safe stop. */
  ghost predicate SafeTick(all: set<Signature>, lookback: int, base: int, p: Progress, t: Tick)
    requires t.maxBatch > 0
  {
    || RangeOf(lookback, p, t).None?
    || (&& SafeStopAbove(base, t.signatures, t.decodes, Cut(t.signatures, t.maxBatch, t.commits))
        && forall s | s in all && base < s.sequence :: !Skips(lookback, p, t, s))
  }

  /** Everything on the chain after `base`, up to the watermark, has been ingested. */
  ghost predicate Covered(all: set<Signature>, base: int, p: Progress) {
    forall s | s in all && base < s.sequence && !Beyond(p.watermark, s) :: s in p.ingested
  }

  lemma ScansInRange(all: set<Signature>, job: Job, sigs: seq<Signature>)
    requires Scans(all, job, sigs)
    ensures InRange(job, sigs)
  {
    forall i | 0 <= i < |sigs| ensures job.start <= sigs[i].sequence <= job.end { assert sigs[i] in sigs; }
  }

  /** Once the watermark is positive no tick skips anything: a tick is safe exactly when its stop is. */
  lemma StartedTickIsSafeExactly(all: set<Signature>, lookback: int, base: int, p: Progress, t: Tick)
    requires t.maxBatch > 0 && p.watermark.Some? && p.watermark.value > 0 && base <= p.watermark.value
    requires RangeOf(lookback, p, t).Some? ==> Scans(all, RangeOf(lookback, p, t).value, t.signatures)
    ensures SafeTick(all, lookback, base, p, t) <==>
            || RangeOf(lookback, p, t).None?
            || SafeStop(t.signatures, t.decodes, Cut(t.signatures, t.maxBatch, t.commits))
  {
    if RangeOf(lookback, p, t).Some? {
      assert forall s | s in t.signatures :: base < s.sequence;
    }
  }

  /** Everything ingested lies at or below the watermark. */
  ghost predicate NothingAhead(p: Progress) {
    forall s | s in p.ingested :: !Beyond(p.watermark, s)
  }

  predicate NotLower(w: Option<int>, w': Option<int>) {
    w.Some? ==> w'.Some? && w'.value >= w.value
  }

  lemma {:induction false} BatchesKeepWatermark(p: Progress, batches: seq<RawBatch>, decodes: Signature -> bool, k: nat)
    requires k <= |batches|
    ensures NotLower(p.watermark, AfterBatches(p, batches, decodes, k).watermark)
    decreases k
  {
    if k > 0 { BatchesKeepWatermark(Commit(p, batches[0], decodes), batches[1..], decodes, k - 1); }
  }

  /** The first commit of a scan that found something puts the watermark at the job's start or right before it. */
  lemma FirstCommitReachesStart(
    job: Job, sigs: seq<Signature>, maxBatch: nat, decodes: Signature -> bool, p: Progress, k: nat)
    requires maxBatch > 0 && sigs != [] && InRange(job, sigs) && 0 < k <= |Chunks(job, sigs, maxBatch)|
    ensures NotLower(Some(job.start - 1), AfterBatches(p, Chunks(job, sigs, maxBatch), decodes, k).watermark)
  {
    var batches := Chunks(job, sigs, maxBatch);
    var b := batches[0];
    assert job.start <= sigs[|sigs| - 1].sequence;
    CursorIsHighest(Cursor(b.cursor, b.sequence), b.signatures, decodes);
    BatchesKeepWatermark(Commit(p, b, decodes), batches[1..], decodes, k - 1);
  }

  /** What a tick ingests. */
  lemma TickIngests(all: set<Signature>, lookback: int, p: Progress, t: Tick, p': Progress, s: Signature)
    requires Ticked(all, lookback, p, t, p') && t.maxBatch > 0 && RangeOf(lookback, p, t).Some?
    ensures s in p'.ingested <==>
            s in p.ingested || (s in t.signatures[..Cut(t.signatures, t.maxBatch, t.commits)] && t.decodes(s))
  {
    var job := RangeOf(lookback, p, t).value;
    if t.commits > 0 {
      if t.signatures == [] {
        SentinelCommit(job, t.maxBatch, t.decodes, p);
      } else {
        PrefixLaw(job, t.signatures, t.maxBatch, t.decodes, p, t.commits);
        DecodedIsMember(t.signatures, t.decodes, Cut(t.signatures, t.maxBatch, t.commits), s);
      }
    }
  }

  lemma TickKeepsWatermark(all: set<Signature>, lookback: int, p: Progress, t: Tick, p': Progress)
    requires Ticked(all, lookback, p, t, p')
    ensures NotLower(p.watermark, p'.watermark)
  {
    if RangeOf(lookback, p, t).Some? {
      var batches := Batches(RangeOf(lookback, p, t).value, t.signatures, t.maxBatch);
      BatchesKeepWatermark(p, batches, t.decodes, t.commits);
    }
  }

  /** What a tick newly ingests was scanned, and lies at or below the new watermark. */
  lemma TickStaysBelow(all: set<Signature>, lookback: int, p: Progress, t: Tick, p': Progress, s: Signature)
    requires Ticked(all, lookback, p, t, p') && s in p'.ingested && s !in p.ingested
    ensures RangeOf(lookback, p, t).Some? && RangeOf(lookback, p, t).value.start <= s.sequence
    ensures !Beyond(p'.watermark, s)
  {
    var job := RangeOf(lookback, p, t).value;
    TickIngests(all, lookback, p, t, p', s);
    ScansInRange(all, job, t.signatures);
    var cut := Cut(t.signatures, t.maxBatch, t.commits);
    var i :| 0 <= i < cut && t.signatures[..cut][i] == s;
    assert s == t.signatures[i];
    PrefixLaw(job, t.signatures, t.maxBatch, t.decodes, p, t.commits);
  }

  lemma TickKeepsNothingAhead(all: set<Signature>, lookback: int, p: Progress, t: Tick, p': Progress)
    requires Ticked(all, lookback, p, t, p') && NothingAhead(p)
    ensures NothingAhead(p')
  {
    TickKeepsWatermark(all, lookback, p, t, p');
    forall s | s in p'.ingested ensures !Beyond(p'.watermark, s) {
      if s !in p.ingested { TickStaysBelow(all, lookback, p, t, p', s); }
    }
  }

  lemma {:induction false} RunKeepsNothingAhead(
    all: set<Signature>, lookback: int, states: seq<Progress>, ticks: seq<Tick>, n: nat)
    requires Run(all, lookback, states, ticks) && n < |states| && NothingAhead(states[0])
    ensures NothingAhead(states[n])
    decreases n
  {
    if n > 0 {
      RunKeepsNothingAhead(all, lookback, states, ticks, n - 1);
      TickKeepsNothingAhead(all, lookback, states[n - 1], ticks[n - 1], states[n]);
    }
  }

  /** Beyond the range nothing is passed. */
  lemma NothingPassedBeyondRange(
    job: Job, sigs: seq<Signature>, decodes: Signature -> bool, cut: nat, w0: Option<int>, w: int, s: Signature)
    requires InRange(job, sigs) && 0 < cut <= |sigs| && Beyond(w0, s) && s.sequence > job.end
    requires Attained(job, sigs, decodes, cut, w0, w)
    ensures w < s.sequence
  {
    assert job.start <= sigs[0].sequence <= job.end;
    forall x | x in sigs[..cut] ensures x.sequence <= job.end {
      var i :| 0 <= i < cut && sigs[..cut][i] == x;
    }
  }

  lemma ScanPasses(all: set<Signature>, lookback: int, p: Progress, t: Tick, p': Progress, s: Signature)
    requires Ticked(all, lookback, p, t, p') && RangeOf(lookback, p, t).Some? && t.signatures != [] && t.commits > 0
    requires s in all && Beyond(p.watermark, s)
    ensures !Beyond(p'.watermark, s) <==>
            || (s in t.signatures && Passed(t.signatures, t.decodes, Cut(t.signatures, t.maxBatch, t.commits), s))
            || Skips(lookback, p, t, s)
  {
    var job, cut := RangeOf(lookback, p, t).value, Cut(t.signatures, t.maxBatch, t.commits);
    ScansInRange(all, job, t.signatures);
    PrefixLaw(job, t.signatures, t.maxBatch, t.decodes, p, t.commits);
    FirstCommitReachesStart(job, t.signatures, t.maxBatch, t.decodes, p, t.commits);
    if s in t.signatures {
      PassedExactly(job, t.signatures, t.decodes, cut, p.watermark, p'.watermark.value, s);
    } else if s.sequence >= job.start {
      NothingPassedBeyondRange(job, t.signatures, t.decodes, cut, p.watermark, p'.watermark.value, s);
    }
  }

  /** What the watermark newly passes in a tick: what the stop passes, and what the tick skips. */
  lemma TickPasses(all: set<Signature>, lookback: int, p: Progress, t: Tick, p': Progress, s: Signature)
    requires Ticked(all, lookback, p, t, p') && RangeOf(lookback, p, t).Some?
    requires s in all && Beyond(p.watermark, s)
    ensures !Beyond(p'.watermark, s) <==>
            || (s in t.signatures && Passed(t.signatures, t.decodes, Cut(t.signatures, t.maxBatch, t.commits), s))
            || Skips(lookback, p, t, s)
  {
    if t.commits > 0 {
      if t.signatures == [] {
        SentinelCommit(RangeOf(lookback, p, t).value, t.maxBatch, t.decodes, p);
        assert s !in t.signatures;
      } else {
        ScanPasses(all, lookback, p, t, p', s);
      }
    }
  }

  lemma SafeTickKeepsCovered(all: set<Signature>, lookback: int, base: int, p: Progress, t: Tick, p': Progress)
    requires Ticked(all, lookback, p, t, p') && Covered(all, base, p)
    requires t.maxBatch > 0 && SafeTick(all, lookback, base, p, t)
    ensures Covered(all, base, p')
  {
    if RangeOf(lookback, p, t).Some? {
      forall s | s in all && base < s.sequence && !Beyond(p'.watermark, s) ensures s in p'.ingested {
        TickIngests(all, lookback, p, t, p', s);
        if Beyond(p.watermark, s) { TickPasses(all, lookback, p, t, p', s); }
      }
    }
  }

  ghost predicate Run(all: set<Signature>, lookback: int, states: seq<Progress>, ticks: seq<Tick>) {
    && |states| == |ticks| + 1
    && forall i | 0 <= i < |ticks| :: ticks[i].maxBatch > 0 && Ticked(all, lookback, states[i], ticks[i], states[i + 1])
  }

  /** Over every run of safe ticks, from any starting point, nothing up to the watermark is ever missing. */
  lemma {:induction false} SafeRunIsCovered(
    all: set<Signature>, lookback: int, base: int, states: seq<Progress>, ticks: seq<Tick>, n: nat)
    requires Run(all, lookback, states, ticks) && n < |states| && NotAbove(states[0].watermark, base)
    requires forall i | 0 <= i < n :: SafeTick(all, lookback, base, states[i], ticks[i])
    ensures Covered(all, base, states[n])
    decreases n
  {
    if n > 0 {
      SafeRunIsCovered(all, lookback, base, states, ticks, n - 1);
      SafeTickKeepsCovered(all, lookback, base, states[n - 1], ticks[n - 1], states[n]);
    }
  }

  /** A signature passed by a positive watermark without being ingested is never ingested later. */
  lemma {:induction false} LostForever(
    all: set<Signature>, lookback: int, states: seq<Progress>, ticks: seq<Tick>, m: nat, n: nat, s: Signature)
    requires Run(all, lookback, states, ticks) && m <= n < |states|
    requires states[m].watermark.Some? && states[m].watermark.value > 0
    requires s !in states[m].ingested && !Beyond(states[m].watermark, s)
    ensures NotLower(states[m].watermark, states[n].watermark)
    ensures s !in states[n].ingested
    decreases n
  {
    if n > m {
      LostForever(all, lookback, states, ticks, m, n - 1, s);
      TickKeepsWatermark(all, lookback, states[n - 1], ticks[n - 1], states[n]);
      if s in states[n].ingested { TickStaysBelow(all, lookback, states[n - 1], ticks[n - 1], states[n], s); }
    }
  }

  /** An unsafe tick passes a signature that has not been ingested. */
  lemma UnsafeTickLoses(all: set<Signature>, lookback: int, base: nat, p: Progress, t: Tick, p': Progress)
    returns (s: Signature)
    requires Ticked(all, lookback, p, t, p') && NothingAhead(p)
    requires t.maxBatch > 0 && !SafeTick(all, lookback, base, p, t)
    ensures s in all && base < s.sequence && !Beyond(p'.watermark, s) && s !in p'.ingested
  {
    var sigs, cut := t.signatures, Cut(t.signatures, t.maxBatch, t.commits);
    if !SafeStopAbove(base, sigs, t.decodes, cut) {
      s :| s in sigs && base < s.sequence && Passed(sigs, t.decodes, cut, s) && !(s in sigs[..cut] && t.decodes(s));
    } else {
      s :| s in all && base < s.sequence && Skips(lookback, p, t, s);
      NotScanned(sigs, cut, s);
    }
    TickPasses(all, lookback, p, t, p', s);
    TickIngests(all, lookback, p, t, p', s);
  }

  lemma NotScanned(sigs: seq<Signature>, cut: nat, s: Signature)
    requires cut <= |sigs|
    ensures s in sigs[..cut] ==> s in sigs
  {
  }

  /**
   * Completeness over whole runs, exactly, whatever the starting watermark: everything on the chain
   * after the starting point and up to the final watermark has been ingested if and only if every tick
   * was safe. Without a positive watermark the starting point is block 0.
   */
  lemma RunIsCompleteExactly(all: set<Signature>, lookback: int, states: seq<Progress>, ticks: seq<Tick>)
    requires Run(all, lookback, states, ticks) && states[0].ingested == {}
    ensures
      var base := BaseOf(states[0].watermark);
      Covered(all, base, states[|ticks|]) <==>
      forall i | 0 <= i < |ticks| :: SafeTick(all, lookback, base, states[i], ticks[i])
  {
    var n, base := |ticks|, BaseOf(states[0].watermark);
    if forall i | 0 <= i < n :: SafeTick(all, lookback, base, states[i], ticks[i]) {
      SafeRunIsCovered(all, lookback, base, states, ticks, n);
    } else {
      var i :| 0 <= i < n && !SafeTick(all, lookback, base, states[i], ticks[i]);
      RunKeepsNothingAhead(all, lookback, states, ticks, i);
      var s := UnsafeTickLoses(all, lookback, base, states[i], ticks[i], states[i + 1]);
      LostForever(all, lookback, states, ticks, i + 1, n, s);
    }
  }

  /**
   * A purge from block 1 leaves the watermark at 0, which reads as no watermark: with a lookback of 3
   * and the head at 10 the next scan starts at block 8, and a signature of block 5 is never scanned.
   */
  lemma RewoundToZeroSkips(s: Signature, decodes: Signature -> bool)
    requires s.sequence == 5
    ensures
      var p, p' := Progress(Some(RewindTo(1)), {}), Progress(Some(10), {});
      var t := Tick(10, 100, 1, [], decodes, 1);
      && RangeOf(3, p, t) == Some(Job(8, 10))
      && Ticked({s}, 3, p, t, p') && Skips(3, p, t, s)
      && StartBlock(p'.watermark, 10, 3) > s.sequence && s !in p'.ingested
  {
    SentinelCommit(Job(8, 10), 1, decodes, Progress(Some(0), {}));
  }
}
