/** processBatchWithRetry: bounded retries around one transaction, and the watermark probe after an unclear commit. */
module Retry {
  import opened Ledger
  import opened EventBuilder
  import opened EventBuilderLaws
  import opened LedgerSteps
  import opened Database
  import opened Commits

  /** How one attempt meets its environment. `built` says whether phase 3 had run before an early failure. */
  datatype Event =
    | EarlyFailure(transient: bool, built: bool)
    | Acknowledged
    | Refused
    | Ambiguous(applied: bool, probeFails: bool)

  /** `cancelled` and `sleepFails` end the loop after a failed attempt. */
  datatype Attempt = Attempt(event: Event, cancelled: bool, sleepFails: bool)

  /** What is left after the call; `commits` counts the transactions that took effect. */
  datatype Outcome = Outcome(tables: Tables, denied: set<string>, ok: bool, commits: nat)

  function EffectiveMaxAttempts(configured: int): (n: int)
    ensures n >= 1 && n >= configured && (n == 1 || n == configured)
  {
    if configured <= 0 then 1 else configured
  }

  /** reconcileBlockScanCommit's reading of the stored watermark. */
  predicate ProbeSaysCommitted(l: Tables, b: Batch) {
    l.watermark.Some? && l.watermark.value >= b.newSequence
  }

  /** What processBatchWithRetry may leave behind, given what each attempt meets. */
  ghost predicate Retried(l: Tables, b: Batch, denied: set<string>, env: seq<Attempt>, o: Outcome)
    requires |env| >= 1
    decreases |env|
  {
    var a := env[0];
    var learned := Learned(l, b, denied);
    match a.event
    case EarlyFailure(transient, built) =>
      var kept := if built then learned else denied;
      if !transient || a.cancelled || a.sleepFails || |env| == 1 then o == Outcome(l, kept, false, 0)
      else Retried(l, b, kept, env[1..], o)
    case Acknowledged =>
      if !Writable(l, b, denied) then o == Outcome(l, learned, false, 0)
      else Writes(l, b, denied, o.tables) && o == Outcome(o.tables, learned, true, 1)
    case Refused =>
      o == Outcome(l, learned, false, 0)
    case Ambiguous(applied, probeFails) =>
      if !Writable(l, b, denied) then o == Outcome(l, learned, false, 0)
      else if applied then
        && Writes(l, b, denied, o.tables)
        && o == Outcome(o.tables, learned, !probeFails && ProbeSaysCommitted(o.tables, b), 1)
      else o == Outcome(l, learned, !probeFails && ProbeSaysCommitted(l, b), 0)
  }

  class Ingester {
    const store: Store
    const retryMaxAttempts: int
    var denied: set<string>

    constructor (store: Store, retryMaxAttempts: int)
      ensures this.store == store && this.retryMaxAttempts == retryMaxAttempts && denied == {}
    {
      this.store, this.retryMaxAttempts, denied := store, retryMaxAttempts, {};
    }

    /** One attempt: the transaction, its commit, and the probe when the commit's outcome is unclear. */
    method ProcessBatch(b: Batch, event: Event) returns (ok: bool, transient: bool, ghost commits: nat)
      requires store.Valid() && forall e | e in b.events :: e.id > NIL_UUID
      modifies store, this`denied
      ensures store.Valid()
      ensures transient ==>
        !ok && commits == 0 && event.EarlyFailure? && event.transient && store.State() == old(store.State())
      ensures transient ==> denied == if event.built then Learned(old(store.State()), b, old(denied)) else old(denied)
      ensures forall rest: seq<Attempt>, cancelled, sleepFails | !transient ::
        Retried(old(store.State()), b, old(denied), [Attempt(event, cancelled, sleepFails)] + rest,
                Outcome(store.State(), denied, ok, commits))
    {
      commits := 0;
      var before := store.State();
      if event.EarlyFailure? && !event.built { return false, event.transient, 0; }
      var written, learned;
      ghost var keys;
      written, learned, keys := store.WriteBatch(b, denied);
      WritableInAnyOrder(before, b, denied, keys);
      denied := learned;
      match event
      case EarlyFailure(transient, _) =>
        store.Restore(before);
        return false, transient, 0;
      case Refused =>
        store.Restore(before);
        return false, false, 0;
      case Acknowledged =>
        if !written {
          store.Restore(before);
          return false, false, 0;
        }
        return true, false, 1;
      case Ambiguous(applied, probeFails) =>
        if !written {
          store.Restore(before);
          return false, false, 0;
        }
        if !applied { store.Restore(before); }
        ok := !probeFails && store.watermark.Some? && store.watermark.value >= b.newSequence;
        return ok, false, if applied then 1 else 0;
    }

    method ProcessBatchWithRetry(b: Batch, env: seq<Attempt>) returns (ok: bool, ghost commits: nat)
      requires store.Valid() && forall e | e in b.events :: e.id > NIL_UUID
      requires |env| == EffectiveMaxAttempts(retryMaxAttempts)
      modifies store, this`denied
      ensures store.Valid()
      ensures Retried(old(store.State()), b, old(denied), env, Outcome(store.State(), denied, ok, commits))
    {
      var attempt := 0;
      while attempt < |env|
        invariant 0 <= attempt < |env|
        invariant store.Valid() && store.State() == old(store.State())
        invariant forall o :: Retried(store.State(), b, denied, env[attempt..], o)
                          ==> Retried(old(store.State()), b, old(denied), env, o)
      {
        ghost var rest := env[attempt..];
        ghost var known := denied;
        var transient;
        ok, transient, commits := ProcessBatch(b, env[attempt].event);
        assert rest == [Attempt(env[attempt].event, env[attempt].cancelled, env[attempt].sleepFails)] + rest[1..];
        assert rest[1..] == env[attempt + 1..];
        if ok || env[attempt].cancelled || !transient || attempt + 1 == |env| || env[attempt].sleepFails {
          assert Retried(old(store.State()), b, known, rest, Outcome(store.State(), denied, ok, commits));
          return;
        }
        assert forall o :: Retried(store.State(), b, known, rest, o) <==>
          Retried(store.State(), b, denied, rest[1..], o);
        attempt := attempt + 1;
      }
    }
  }

  // ----- At most once, and when a success is to be believed -----

  lemma {:induction false} LearnedGrows(b: Batch, s: Build, events: seq<DecodedEvent>)
    ensures s.denied <= LearnedFrom(b, s, events)
    decreases |events|
  {
    if events != [] {
      match Step(b, s, events[0])
      case None =>
      case Some(s') => LearnedGrows(b, s', events[1..]);
    }
  }

  /**
   * However the attempts go, at most one transaction takes effect. It ingests the batch into the
   * tables as they were, under the denied tokens known at the time of that attempt.
   */
  lemma {:induction false} AtMostOnce(l: Tables, b: Batch, denied: set<string>, env: seq<Attempt>, o: Outcome)
    requires |env| >= 1 && Retried(l, b, denied, env, o)
    ensures o.commits <= 1
    ensures o.commits == 0 ==> o.tables == l
    ensures o.commits == 1 ==> exists known :: denied <= known <= o.denied && Writes(l, b, known, o.tables)
    ensures denied <= o.denied
    decreases |env|
  {
    LearnedGrows(b, Start(l.balances, b, denied), b.events);
    match env[0].event
    case EarlyFailure(transient, built) =>
      var a := env[0];
      if !(!transient || a.cancelled || a.sleepFails || |env| == 1) {
        AtMostOnce(l, b, if built then Learned(l, b, denied) else denied, env[1..], o);
      }
    case _ =>
      assert o.commits == 1 ==> denied <= denied <= o.denied && Writes(l, b, denied, o.tables);
  }

  /** A success stands for a commit whenever the batch's sequence is above the stored watermark. */
  lemma {:induction false} SuccessIsCommitted(l: Tables, b: Batch, denied: set<string>, env: seq<Attempt>, o: Outcome)
    requires |env| >= 1 && Retried(l, b, denied, env, o) && o.ok
    requires l.watermark.None? || l.watermark.value < b.newSequence
    ensures o.commits == 1
    decreases |env|
  {
    if env[0].event.EarlyFailure? {
      SuccessIsCommitted(l, b, if env[0].event.built then Learned(l, b, denied) else denied, env[1..], o);
    }
  }

  /** Whatever the environment does, success means committed. */
  ghost predicate Trustworthy(l: Tables, b: Batch, denied: set<string>) {
    forall env: seq<Attempt>, o | |env| >= 1 && Retried(l, b, denied, env, o) && o.ok :: o.commits == 1
  }

  /** The denied tokens after `n` attempts that failed early but had built their models. */
  function LearnedAfter(l: Tables, b: Batch, denied: set<string>, n: nat): set<string>
    decreases n
  {
    if n == 0 then denied else LearnedAfter(l, b, Learned(l, b, denied), n - 1)
  }

  /** Some attempt can get as far as its commit. */
  ghost predicate ReachesCommit(l: Tables, b: Batch, denied: set<string>) {
    exists n: nat :: Writable(l, b, LearnedAfter(l, b, denied, n))
  }

  lemma ReachIsInherited(l: Tables, b: Batch, denied: set<string>)
    requires !ReachesCommit(l, b, denied)
    ensures !Writable(l, b, denied) && !ReachesCommit(l, b, Learned(l, b, denied))
  {
    assert LearnedAfter(l, b, denied, 0) == denied;
    forall n: nat ensures !Writable(l, b, LearnedAfter(l, b, Learned(l, b, denied), n)) {
      assert LearnedAfter(l, b, denied, n + 1) == LearnedAfter(l, b, Learned(l, b, denied), n);
    }
  }

  /** A batch that no attempt can write is never reported as done. */
  lemma {:induction false} UnwritableIsReported(l: Tables, b: Batch, denied: set<string>, env: seq<Attempt>, o: Outcome)
    requires |env| >= 1 && Retried(l, b, denied, env, o) && !ReachesCommit(l, b, denied)
    ensures !o.ok && o.commits == 0
    decreases |env|
  {
    ReachIsInherited(l, b, denied);
    match env[0].event
    case EarlyFailure(transient, built) =>
      if !(!transient || env[0].cancelled || env[0].sleepFails || |env| == 1) {
        UnwritableIsReported(l, b, if built then Learned(l, b, denied) else denied, env[1..], o);
      }
    case _ =>
  }

  /** `n` early failures and then a commit that is lost, whose probe reads the old watermark. */
  lemma {:induction false} LostCommitIsTrusted(l: Tables, b: Batch, denied: set<string>, n: nat)
    returns (env: seq<Attempt>, o: Outcome)
    requires l.watermark.Some? && l.watermark.value >= b.newSequence
    requires Writable(l, b, LearnedAfter(l, b, denied, n))
    ensures |env| == n + 1 && Retried(l, b, denied, env, o) && o.ok && o.commits == 0 && o.tables == l
    decreases n
  {
    if n == 0 {
      env, o := [Attempt(Ambiguous(false, false), false, false)], Outcome(l, Learned(l, b, denied), true, 0);
    } else {
      var rest;
      rest, o := LostCommitIsTrusted(l, b, Learned(l, b, denied), n - 1);
      env := [Attempt(EarlyFailure(true, true), false, false)] + rest;
      assert env[1..] == rest;
    }
  }

  /**
   * Success can be trusted exactly when the batch's sequence lies above the stored watermark or no
   * attempt can write the batch. Otherwise a commit that was lost is reported as done.
   */
  lemma TrustIsExact(l: Tables, b: Batch, denied: set<string>)
    ensures Trustworthy(l, b, denied) <==>
            l.watermark.None? || l.watermark.value < b.newSequence || !ReachesCommit(l, b, denied)
  {
    if ProbeSaysCommitted(l, b) && ReachesCommit(l, b, denied) {
      var n: nat :| Writable(l, b, LearnedAfter(l, b, denied, n));
      var env, o := LostCommitIsTrusted(l, b, denied, n);
    } else {
      forall env: seq<Attempt>, o | |env| >= 1 && Retried(l, b, denied, env, o) && o.ok ensures o.commits == 1 {
        if ProbeSaysCommitted(l, b) {
          UnwritableIsReported(l, b, denied, env, o);
        } else {
          SuccessIsCommitted(l, b, denied, env, o);
        }
      }
    }
  }

  /** A commit that did take effect is always recognised by a probe that answers. */
  lemma CommitIsRecognised(l: Tables, b: Batch, denied: set<string>, l': Tables)
    requires Writes(l, b, denied, l')
    ensures l'.watermark.Some? && l'.watermark.value >= b.newSequence
  {
  }

  /** With nothing auto-denied, whichever attempt commits writes what the first one would have. */
  lemma {:induction false} RetryIsFirstAttempt(l: Tables, b: Batch, denied: set<string>, env: seq<Attempt>, o: Outcome)
    requires |env| >= 1 && Retried(l, b, denied, env, o) && o.commits == 1
    requires Learned(l, b, denied) == denied
    ensures Writes(l, b, denied, o.tables) && o.denied == denied
    decreases |env|
  {
    if env[0].event.EarlyFailure? { RetryIsFirstAttempt(l, b, denied, env[1..], o); }
  }

  /** A retry after phase 3 stores no event of a contract the failed attempt auto-denied, not even the earlier ones. */
  lemma RetryDropsContract(l: Tables, b: Batch, denied: set<string>, env: seq<Attempt>, o: Outcome, contract: string)
    requires |env| >= 1 && Retried(l, b, denied, env, o) && o.commits == 1
    requires env[0].event.EarlyFailure? && env[0].event.built && contract in Learned(l, b, denied)
    ensures exists known ::
      && Writes(l, b, known, o.tables)
      && BuildOf(l, b, known) == BuildAll(b, Start(l.balances, b, known), Without(b.events, contract))
  {
    AtMostOnce(l, b, Learned(l, b, denied), env[1..], o);
    var known :| Learned(l, b, denied) <= known && Writes(l, b, known, o.tables);
    DeniedContributesNothing(b, Start(l.balances, b, known), b.events, contract);
  }
}
