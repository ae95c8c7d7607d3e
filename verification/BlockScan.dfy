/** One block-scan job: the coordinator's range, the fetcher's chunks, the normalizer's cursor, the watermark. */
module BlockScan {
  import opened Sums
  import opened Text
  import opened Signatures

  const DEFAULT_MAX_BATCH: nat := 500

  datatype Job = Job(start: int, end: int)

  datatype RawBatch = RawBatch(signatures: seq<Signature>, cursor: Option<string>, sequence: int)

  // ----- Coordinator -----

  /** tickBlockScan: where the scan starts. */
  function StartBlock(watermark: Option<int>, head: int, lookback: int): int {
    if watermark.Some? && watermark.value > 0 then watermark.value + 1
    else if head > 0 && lookback > 0 then Max(0, head - lookback + 1)
    else 0
  }

  /** The range of the next job, or None when the watermark is ahead of the head. */
  function NextRange(watermark: Option<int>, head: int, lookback: int, batchSize: int): Option<Job> {
    var start := StartBlock(watermark, head, lookback);
    if head > 0 && start > head then None
    else Some(Job(start, if head > 0 && head - start + 1 > batchSize then start + batchSize - 1 else head))
  }

  class Coordinator {
    var hasEnqueued: bool
    var lastEnqueued: Job
    const lookback: int

    constructor (lookback: int)
      ensures !hasEnqueued && this.lookback == lookback
    {
      this.lookback, hasEnqueued, lastEnqueued := lookback, false, Job(0, 0);
    }

    /** A watermark that cannot be read counts as missing; a range already enqueued is not enqueued again. */
    method Tick(watermark: Option<int>, rawHead: int, batchSize: int) returns (job: Option<Job>)
      modifies this`hasEnqueued, this`lastEnqueued
      ensures
        var range := NextRange(watermark, Max(rawHead, 0), lookback, batchSize);
        job == if range.Some? && old(hasEnqueued && lastEnqueued == range.value) then None else range
      ensures job.Some? ==> hasEnqueued && lastEnqueued == job.value
      ensures job.None? ==> hasEnqueued == old(hasEnqueued) && lastEnqueued == old(lastEnqueued)
    {
      var head := if rawHead < 0 then 0 else rawHead;
      var start, hasWatermark := 0, false;
      if watermark.Some? && watermark.value > 0 { start, hasWatermark := watermark.value + 1, true; }
      if !hasWatermark && head > 0 && lookback > 0 {
        var tipStart := head - lookback + 1;
        if tipStart < 0 { tipStart := 0; }
        if tipStart > start { start := tipStart; }
      }
      if head > 0 && start > head { return None; }
      var end := head;
      if end > 0 && end - start + 1 > batchSize { end := start + batchSize - 1; }
      if hasEnqueued && lastEnqueued == Job(start, end) { return None; }
      hasEnqueued, lastEnqueued := true, Job(start, end);
      return Some(Job(start, end));
    }
  }

  // ----- Fetcher -----

  function EffectiveMaxBatch(configured: int): (n: nat)
    ensures n > 0 && (configured > 0 ==> n == configured) && (configured <= 0 ==> n == 500)
  {
    if configured <= 0 then DEFAULT_MAX_BATCH else configured
  }

  /** The sub-batches of a non-empty signature list: only the last one carries the newest signature as cursor. */
  function Chunks(job: Job, sigs: seq<Signature>, maxBatch: nat): seq<RawBatch>
    requires maxBatch > 0 && sigs != []
    decreases |sigs|
  {
    var newest := sigs[|sigs| - 1];
    if |sigs| <= maxBatch then [RawBatch(sigs, Some(newest.hash), newest.sequence)]
    else [RawBatch(sigs[..maxBatch], None, job.start - 1)] + Chunks(job, sigs[maxBatch..], maxBatch)
  }

  /** What a job sends down the pipeline; an empty scan sends a sentinel for the end of the range. */
  function Batches(job: Job, sigs: seq<Signature>, maxBatch: nat): (r: seq<RawBatch>)
    requires maxBatch > 0
    ensures r != []
  {
    if sigs == [] then [RawBatch([], None, job.end)] else Chunks(job, sigs, maxBatch)
  }

  /** The sub-batches still to send from position `start` on. */
  function Pending(job: Job, sigs: seq<Signature>, maxBatch: nat, start: nat): seq<RawBatch>
    requires maxBatch > 0 && start <= |sigs|
  {
    if start == |sigs| then [] else Chunks(job, sigs[start..], maxBatch)
  }

  function SubBatch(job: Job, sigs: seq<Signature>, start: nat, end: nat): RawBatch
    requires start < end <= |sigs|
  {
    if end < |sigs| then RawBatch(sigs[start..end], None, job.start - 1)
    else RawBatch(sigs[start..end], Some(sigs[|sigs| - 1].hash), sigs[|sigs| - 1].sequence)
  }

  lemma PendingStep(job: Job, sigs: seq<Signature>, maxBatch: nat, start: nat, end: nat)
    requires maxBatch > 0 && start < |sigs| && end == if start + maxBatch > |sigs| then |sigs| else start + maxBatch
    ensures Pending(job, sigs, maxBatch, start) == [SubBatch(job, sigs, start, end)] + Pending(job, sigs, maxBatch, end)
  {
    var rest := sigs[start..];
    assert rest[|rest| - 1] == sigs[|sigs| - 1];
    if end == |sigs| {
      assert sigs[start..end] == rest;
    } else {
      assert rest[..maxBatch] == sigs[start..end] && rest[maxBatch..] == sigs[end..];
    }
  }

  /** processBlockScanJob, after canonicalization of the scanned signatures. */
  method ProcessBlockScanJob(job: Job, sigs: seq<Signature>, configuredMaxBatch: int) returns (sent: seq<RawBatch>)
    ensures sent == Batches(job, sigs, EffectiveMaxBatch(configuredMaxBatch))
  {
    if |sigs| == 0 { return [RawBatch([], None, job.end)]; }
    sent := SendChunks(job, sigs, EffectiveMaxBatch(configuredMaxBatch));
    assert sigs[0..] == sigs;
  }

  method SendChunks(job: Job, sigs: seq<Signature>, maxBatch: nat) returns (sent: seq<RawBatch>)
    requires maxBatch > 0 && |sigs| > 0
    ensures sent == Pending(job, sigs, maxBatch, 0)
  {
    var newest := sigs[|sigs| - 1];
    sent := [];
    var start := 0;
    while start < |sigs|
      invariant 0 <= start <= |sigs|
      invariant Pending(job, sigs, maxBatch, 0) == sent + Pending(job, sigs, maxBatch, start)
    {
      var end := start + maxBatch;
      if end > |sigs| { end := |sigs|; }
      PendingStep(job, sigs, maxBatch, start, end);
      var cursor, sequence := None, job.start - 1;
      if end == |sigs| { cursor, sequence := Some(newest.hash), newest.sequence; }
      var subBatch := RawBatch(sigs[start..end], cursor, sequence);
      assert subBatch == SubBatch(job, sigs, start, end);
      sent := sent + [subBatch];
      start := end;
    }
  }

  function SignaturesOf(batches: seq<RawBatch>): seq<Signature> {
    if batches == [] then [] else batches[0].signatures + SignaturesOf(batches[1..])
  }

  /** Chunking neither loses, repeats nor reorders a signature, and no sub-batch exceeds the limit. */
  lemma {:induction false} ChunksPartition(job: Job, sigs: seq<Signature>, maxBatch: nat)
    requires maxBatch > 0 && sigs != []
    ensures SignaturesOf(Chunks(job, sigs, maxBatch)) == sigs
    ensures forall b | b in Chunks(job, sigs, maxBatch) :: 0 < |b.signatures| <= maxBatch
    decreases |sigs|
  {
    if |sigs| <= maxBatch {
      assert Chunks(job, sigs, maxBatch)[1..] == [];
    } else {
      ChunksPartition(job, sigs[maxBatch..], maxBatch);
      assert Chunks(job, sigs, maxBatch)[1..] == Chunks(job, sigs[maxBatch..], maxBatch);
      assert sigs == sigs[..maxBatch] + sigs[maxBatch..];
    }
  }

  // ----- Normalizer -----

  datatype Cursor = Cursor(value: Option<string>, sequence: int)

  /** shouldAdvanceCanonicalCursor. */
  predicate ShouldAdvance(current: Cursor, sequence: int, value: string) {
    || sequence > current.sequence
    || (&& sequence == current.sequence
        && TrimSpace(value) != ""
        && (|| current.value.None?
            || TrimSpace(current.value.value) == ""
            || Less(TrimSpace(current.value.value), TrimSpace(value))))
  }

  function CursorAfter(start: Cursor, sigs: seq<Signature>, decodes: Signature -> bool): Cursor {
    if sigs == [] then start
    else
      var c, s := CursorAfter(start, sigs[..|sigs| - 1], decodes), sigs[|sigs| - 1];
      if decodes(s) && ShouldAdvance(c, s.sequence, s.hash) then Cursor(Some(s.hash), s.sequence) else c
  }

  /** A batch none of whose signatures decodes is an error; the empty sentinel passes through. */
  predicate Decodable(b: RawBatch, decodes: Signature -> bool) {
    b.signatures == [] || exists s | s in b.signatures :: decodes(s)
  }

  function NewCursor(b: RawBatch, decodes: Signature -> bool): Cursor {
    CursorAfter(Cursor(b.cursor, b.sequence), b.signatures, decodes)
  }

  /** The cursor handling of processBatch. Signatures that fail to decode are isolated and skipped. */
  method NormalizeCursor(b: RawBatch, decodes: Signature -> bool) returns (r: Option<Cursor>)
    ensures r == if Decodable(b, decodes) then Some(NewCursor(b, decodes)) else None
  {
    if |b.signatures| == 0 { return Some(Cursor(b.cursor, b.sequence)); }
    var c, processed := Cursor(b.cursor, b.sequence), 0;
    for i := 0 to |b.signatures|
      invariant c == CursorAfter(Cursor(b.cursor, b.sequence), b.signatures[..i], decodes)
      invariant processed >= 0 && (processed > 0 <==> exists s | s in b.signatures[..i] :: decodes(s))
    {
      var s := b.signatures[i];
      assert b.signatures[..i + 1] == b.signatures[..i] + [s];
      assert b.signatures[..i + 1][..i] == b.signatures[..i];
      if !decodes(s) { continue; }
      assert s in b.signatures[..i + 1];
      if ShouldAdvance(c, s.sequence, s.hash) { c := Cursor(Some(s.hash), s.sequence); }
      processed := processed + 1;
    }
    assert b.signatures[..|b.signatures|] == b.signatures;
    if processed == 0 { return None; }
    return Some(c);
  }

  /** The cursor ends at the highest of its starting sequence and the decoded sequences. */
  lemma {:induction false} CursorIsHighest(start: Cursor, sigs: seq<Signature>, decodes: Signature -> bool)
    ensures
      var c := CursorAfter(start, sigs, decodes);
      && c.sequence >= start.sequence
      && (forall s | s in sigs && decodes(s) :: c.sequence >= s.sequence)
      && (c.sequence == start.sequence || exists s | s in sigs :: decodes(s) && s.sequence == c.sequence)
    decreases |sigs|
  {
    if sigs != [] {
      CursorIsHighest(start, sigs[..|sigs| - 1], decodes);
      assert forall s :: s in sigs <==> s in sigs[..|sigs| - 1] || s == sigs[|sigs| - 1];
    }
  }

  /** The cursor is at or past the signature: a higher block, or the same block and no smaller hash. */
  predicate Reaches(c: Cursor, s: Signature) {
    || s.sequence < c.sequence
    || (&& s.sequence == c.sequence
        && (|| TrimSpace(s.hash) == ""
            || (&& c.value.Some? && TrimSpace(c.value.value) != ""
                && !Less(TrimSpace(c.value.value), TrimSpace(s.hash)))))
  }

  lemma AdvanceKeepsReach(c: Cursor, s: Signature, t: Signature)
    requires Reaches(c, s) && ShouldAdvance(c, t.sequence, t.hash)
    ensures Reaches(Cursor(Some(t.hash), t.sequence), s)
  {
    var seen, next := TrimSpace(s.hash), TrimSpace(t.hash);
    if c.value.Some? && Less(next, seen) && Less(TrimSpace(c.value.value), next) {
      LessTransitive(TrimSpace(c.value.value), next, seen);
    }
  }

  lemma CursorReachesNew(c: Cursor, t: Signature)
    ensures Reaches(if ShouldAdvance(c, t.sequence, t.hash) then Cursor(Some(t.hash), t.sequence) else c, t)
  {
    LessIrreflexive(TrimSpace(t.hash));
  }

  /** Of the signatures in its block the cursor names the greatest hash. */
  lemma {:induction false} CursorIsGreatest(start: Cursor, sigs: seq<Signature>, decodes: Signature -> bool)
    ensures forall s | s in sigs && decodes(s) :: Reaches(CursorAfter(start, sigs, decodes), s)
    decreases |sigs|
  {
    if sigs != [] {
      var init, t := sigs[..|sigs| - 1], sigs[|sigs| - 1];
      var c := CursorAfter(start, init, decodes);
      CursorIsGreatest(start, init, decodes);
      CursorReachesNew(c, t);
      forall s | s in sigs && decodes(s) ensures Reaches(CursorAfter(start, sigs, decodes), s) {
        assert s in init || s == t;
        if s in init && ShouldAdvance(c, t.sequence, t.hash) { AdvanceKeepsReach(c, s, t); }
      }
    }
  }
}
