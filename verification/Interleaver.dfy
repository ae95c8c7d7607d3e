/** Cross-chain commit turn-taking: every mutex-guarded section is one atomic step over the clients. */
module Interleaver {
  import opened Sums

  /** A caller of Acquire. `Gone` holds a spent release function, gave up waiting, or was never tracked. */
  datatype Client =
    | Waiting(key: string, deadline: Option<int>)
    | Holding(key: string)
    | Gone

  datatype Turns = Turns(
    order: seq<string>, active: string, next: nat, waiting: map<string, int>, clients: map<nat, Client>)

  datatype Action =
    | Enter(id: nat, key: string, deadline: Option<int>)
    | TryAcquire(id: nat, now: int)
    | Cancel(id: nat)
    | Release(id: nat, committed: bool)

  function Count(waiting: map<string, int>, key: string): int {
    if key in waiting then waiting[key] else 0
  }

  /** canAcquireLocked. */
  predicate CanAcquire(
    order: seq<string>, active: string, next: nat, waiting: map<string, int>, key: string, deadline: Option<int>,
    now: int)
  {
    && active == ""
    && next < |order|
    && (key == order[next] || (Count(waiting, order[next]) <= 0 && (deadline.None? || now >= deadline.value)))
  }

  predicate Able(s: Turns, id: nat, now: int)
    requires id in s.clients && s.clients[id].Waiting?
  {
    CanAcquire(s.order, s.active, s.next, s.waiting, s.clients[id].key, s.clients[id].deadline, now)
  }

  /** The position of a key in the order. */
  function IndexOf(order: seq<string>, key: string): (i: nat)
    requires key in order
    ensures i < |order| && order[i] == key
  {
    if order[0] == key then 0 else 1 + IndexOf(order[1..], key)
  }

  /** The position whose turn it is `j` turns after `start`. */
  function Slot(start: nat, j: nat, n: nat): nat
    requires n > 0
  {
    (start + j) % n
  }

  predicate Enabled(s: Turns, a: Action) {
    match a
    case Enter(id, _, _) => id !in s.clients
    case TryAcquire(id, _) => id in s.clients && s.clients[id].Waiting?
    case Cancel(id) => id in s.clients && s.clients[id].Waiting?
    case Release(id, _) => id in s.clients && !s.clients[id].Waiting?
  }

  function Entered(s: Turns, id: nat, key: string, deadline: Option<int>): Turns {
    if key !in s.order then s.(clients := s.clients[id := Gone])
    else s.(waiting := s.waiting[key := Count(s.waiting, key) + 1], clients := s.clients[id := Waiting(key, deadline)])
  }

  function Acquired(s: Turns, id: nat): Turns
    requires id in s.clients && s.clients[id].Waiting?
  {
    var key := s.clients[id].key;
    s.(active := key, waiting := s.waiting[key := Count(s.waiting, key) - 1], clients := s.clients[id := Holding(key)])
  }

  function Cancelled(s: Turns, id: nat): Turns
    requires id in s.clients && s.clients[id].Waiting?
  {
    var key := s.clients[id].key;
    s.(waiting := if Count(s.waiting, key) > 0 then s.waiting[key := Count(s.waiting, key) - 1] else s.waiting,
       clients := s.clients[id := Gone])
  }

  /** The release function: only its first call does anything. */
  function Freed(s: Turns, id: nat, committed: bool): Turns
    requires id in s.clients
  {
    if !s.clients[id].Holding? then s
    else
      var key := s.clients[id].key;
      s.(active := if s.active == key then "" else s.active,
         next := if committed && key in s.order then Slot(IndexOf(s.order, key), 1, |s.order|) else s.next,
         clients := s.clients[id := Gone])
  }

  function Next(s: Turns, a: Action): Turns
    requires Enabled(s, a)
  {
    match a
    case Enter(id, key, deadline) => Entered(s, id, key, deadline)
    case TryAcquire(id, now) => if Able(s, id, now) then Acquired(s, id) else s
    case Cancel(id) => Cancelled(s, id)
    case Release(id, committed) => Freed(s, id, committed)
  }

  // ----- What every step keeps -----

  function WaitersOn(clients: map<nat, Client>, key: string): set<nat> {
    set id | id in clients && clients[id].Waiting? && clients[id].key == key
  }

  function Holders(clients: map<nat, Client>): set<nat> {
    set id | id in clients && clients[id].Holding?
  }

  ghost predicate WellOrdered(order: seq<string>) {
    && NoDuplicates(order)
    && forall i | 0 <= i < |order| :: order[i] != ""
  }

  ghost predicate Tracked(s: Turns) {
    forall id | id in s.clients && !s.clients[id].Gone? :: s.clients[id].key in s.order
  }

  ghost predicate CountsWaiters(s: Turns) {
    forall key :: Count(s.waiting, key) == |WaitersOn(s.clients, key)|
  }

  /** Nobody holds the turn, or exactly one client does and `active` is its key. */
  ghost predicate OneHolder(s: Turns) {
    if s.active == "" then Holders(s.clients) == {}
    else exists id :: Holders(s.clients) == {id} && s.clients[id].key == s.active
  }

  ghost predicate Inv(s: Turns) {
    && WellOrdered(s.order)
    && (s.order != [] ==> s.next < |s.order|)
    && Tracked(s) && CountsWaiters(s) && OneHolder(s)
  }

  function Init(order: seq<string>): Turns {
    Turns(order, "", 0, map[], map[])
  }

  lemma InitInv(order: seq<string>)
    requires WellOrdered(order)
    ensures Inv(Init(order))
  {
    forall key ensures WaitersOn(map[], key) == {} {
    }
  }

  lemma WaiterArrives(clients: map<nat, Client>, id: nat, key: string, deadline: Option<int>, k: string)
    requires id !in clients
    ensures |WaitersOn(clients[id := Waiting(key, deadline)], k)| == |WaitersOn(clients, k)| + if k == key then 1 else 0
  {
    var after := WaitersOn(clients[id := Waiting(key, deadline)], k);
    if k == key { assert after == WaitersOn(clients, k) + {id}; } else { assert after == WaitersOn(clients, k); }
  }

  lemma WaiterLeaves(clients: map<nat, Client>, id: nat, c: Client, k: string)
    requires id in clients && clients[id].Waiting? && !c.Waiting?
    ensures |WaitersOn(clients[id := c], k)| == |WaitersOn(clients, k)| - if k == clients[id].key then 1 else 0
    ensures k == clients[id].key ==> |WaitersOn(clients, k)| > 0
  {
    var after := WaitersOn(clients[id := c], k);
    if k == clients[id].key {
      assert id in WaitersOn(clients, k);
      assert after == WaitersOn(clients, k) - {id};
    } else {
      assert after == WaitersOn(clients, k);
    }
  }

  lemma EnterKeepsInv(s: Turns, id: nat, key: string, deadline: Option<int>)
    requires Inv(s) && id !in s.clients
    ensures Inv(Entered(s, id, key, deadline))
  {
    var s' := Entered(s, id, key, deadline);
    assert Holders(s'.clients) == Holders(s.clients);
    forall k ensures Count(s'.waiting, k) == |WaitersOn(s'.clients, k)| {
      if key in s.order { WaiterArrives(s.clients, id, key, deadline, k); }
      else { assert WaitersOn(s'.clients, k) == WaitersOn(s.clients, k); }
    }
  }

  lemma AcquireKeepsInv(s: Turns, id: nat)
    requires Inv(s) && id in s.clients && s.clients[id].Waiting? && s.active == ""
    ensures Inv(Acquired(s, id))
  {
    var s' := Acquired(s, id);
    assert Holders(s'.clients) == {id};
    assert s.clients[id].key in s.order;
    forall k ensures Count(s'.waiting, k) == |WaitersOn(s'.clients, k)| {
      WaiterLeaves(s.clients, id, Holding(s.clients[id].key), k);
    }
  }

  lemma CancelKeepsInv(s: Turns, id: nat)
    requires Inv(s) && id in s.clients && s.clients[id].Waiting?
    ensures Inv(Cancelled(s, id))
  {
    var s' := Cancelled(s, id);
    assert Holders(s'.clients) == Holders(s.clients);
    forall k ensures Count(s'.waiting, k) == |WaitersOn(s'.clients, k)| {
      WaiterLeaves(s.clients, id, Gone, s.clients[id].key);
      WaiterLeaves(s.clients, id, Gone, k);
    }
  }

  lemma TheHolder(s: Turns, id: nat)
    requires OneHolder(s) && id in s.clients && s.clients[id].Holding?
    ensures s.active == s.clients[id].key != "" && Holders(s.clients) == {id}
  {
    assert id in Holders(s.clients);
  }

  lemma HolderLeaves(clients: map<nat, Client>, id: nat)
    ensures Holders(clients[id := Gone]) == Holders(clients) - {id}
  {
  }

  lemma ReleaseKeepsInv(s: Turns, id: nat, committed: bool)
    requires Inv(s) && id in s.clients && !s.clients[id].Waiting?
    ensures Inv(Freed(s, id, committed))
  {
    if s.clients[id].Holding? {
      TheHolder(s, id);
      var s' := Freed(s, id, committed);
      HolderLeaves(s.clients, id);
      assert s'.active == "";
      forall k ensures WaitersOn(s'.clients, k) == WaitersOn(s.clients, k) {
      }
      assert CountsWaiters(s') by {
        forall k ensures Count(s'.waiting, k) == |WaitersOn(s'.clients, k)| {
          assert Count(s.waiting, k) == |WaitersOn(s.clients, k)|;
        }
      }
    }
  }

  /** One atomic step keeps mutual exclusion and the waiting counts. */
  lemma NextKeepsInv(s: Turns, a: Action)
    requires Inv(s) && Enabled(s, a)
    ensures Inv(Next(s, a))
  {
    match a
    case Enter(id, key, deadline) => EnterKeepsInv(s, id, key, deadline);
    case TryAcquire(id, now) => if Able(s, id, now) { AcquireKeepsInv(s, id); }
    case Cancel(id) => CancelKeepsInv(s, id);
    case Release(id, committed) => ReleaseKeepsInv(s, id, committed);
  }

  // ----- Whole runs -----

  /** Every interleaving of the clients' steps. */
  ghost predicate Run(states: seq<Turns>, actions: seq<Action>) {
    && |states| == |actions| + 1
    && forall i | 0 <= i < |actions| :: Enabled(states[i], actions[i]) && states[i + 1] == Next(states[i], actions[i])
  }

  lemma {:induction false} RunKeepsInv(states: seq<Turns>, actions: seq<Action>, n: nat)
    requires Run(states, actions) && n < |states| && Inv(states[0])
    ensures Inv(states[n]) && states[n].order == states[0].order
    decreases n
  {
    if n > 0 {
      RunKeepsInv(states, actions, n - 1);
      NextKeepsInv(states[n - 1], actions[n - 1]);
    }
  }

  /**
   * Mutual exclusion over every run, in every state: nobody holds the turn exactly when `active` is
   * empty, two clients never hold it together, `active` names the holder, and the count kept for a key
   * is the number of clients blocked on it.
   */
  lemma MutualExclusion(order: seq<string>, states: seq<Turns>, actions: seq<Action>, n: nat)
    requires WellOrdered(order) && Run(states, actions) && n < |states| && states[0] == Init(order)
    ensures states[n].active == "" <==> Holders(states[n].clients) == {}
    ensures forall i, j | i in Holders(states[n].clients) && j in Holders(states[n].clients) ::
              i == j && states[n].active == states[n].clients[i].key
    ensures forall key :: Count(states[n].waiting, key) == |WaitersOn(states[n].clients, key)|
  {
    InitInv(order);
    RunKeepsInv(states, actions, n);
    var s := states[n];
    forall i | i in Holders(s.clients) ensures Holders(s.clients) == {i} && s.active == s.clients[i].key != "" {
      TheHolder(s, i);
    }
  }

  /** A second call of a release function changes nothing, whether or not it says committed. */
  lemma DoubleRelease(s: Turns, id: nat, first: bool, second: bool)
    requires Enabled(s, Release(id, first))
    ensures
      var once := Next(s, Release(id, first));
      Enabled(once, Release(id, second)) && Next(once, Release(id, second)) == once
  {
  }

  /** Somebody can always go: with no holder and a waiter whose deadline is unset or past, some waiter can acquire. */
  lemma Progress(s: Turns, id: nat, now: int)
    requires Inv(s) && s.active == "" && id in s.clients && s.clients[id].Waiting?
    requires s.clients[id].deadline.None? || now >= s.clients[id].deadline.value
    ensures exists w | w in s.clients && s.clients[w].Waiting? :: Able(s, w, now)
  {
    var preferred := s.order[s.next];
    if Count(s.waiting, preferred) <= 0 {
      assert Able(s, id, now);
    } else {
      assert Count(s.waiting, preferred) == |WaitersOn(s.clients, preferred)|;
      var w :| w in WaitersOn(s.clients, preferred);
      assert Able(s, w, now);
    }
  }

  // ----- Turns -----

  /** The step is a release that reports a commit and gives the turn back. */
  predicate Commits(s: Turns, a: Action) {
    a.Release? && a.committed && a.id in s.clients && s.clients[a.id].Holding?
  }

  predicate Acquires(s: Turns, a: Action) {
    a.TryAcquire? && a.id in s.clients && s.clients[a.id].Waiting? && Able(s, a.id, a.now)
  }

  function Logged(s: Turns, a: Action): seq<nat> {
    if Commits(s, a) && s.clients[a.id].key in s.order then [IndexOf(s.order, s.clients[a.id].key)] else []
  }

  /** Order positions of the keys that released with a commit, in the order they did. */
  function CommitLog(states: seq<Turns>, actions: seq<Action>, n: nat): seq<nat>
    requires n <= |actions| && n < |states|
  {
    if n == 0 then []
    else CommitLog(states, actions, n - 1) + Logged(states[n - 1], actions[n - 1])
  }

  function TurnAfter(log: seq<nat>, start: nat, n: nat): nat
    requires n > 0
  {
    if log == [] then start else Slot(log[|log| - 1], 1, n)
  }

  /** Only a committed release moves the turn, and it moves it just past the key that committed. */
  lemma StepTurn(s: Turns, a: Action)
    requires Inv(s) && Enabled(s, a) && s.order != []
    ensures Logged(s, a) == [] <==> !Commits(s, a)
    ensures Next(s, a).next == TurnAfter(Logged(s, a), s.next, |s.order|)
  {
  }

  lemma {:induction false} TurnFollowsCommits(states: seq<Turns>, actions: seq<Action>, n: nat)
    requires Run(states, actions) && n < |states| && Inv(states[0]) && states[0].order != []
    ensures states[n].next == TurnAfter(CommitLog(states, actions, n), states[0].next, |states[0].order|)
    decreases n
  {
    if n > 0 {
      TurnFollowsCommits(states, actions, n - 1);
      RunKeepsInv(states, actions, n - 1);
      StepTurn(states[n - 1], actions[n - 1]);
    }
  }

  /** At each acquisition the preferred target has a client waiting. */
  ghost predicate PreferredWaits(states: seq<Turns>, actions: seq<Action>)
    requires Run(states, actions)
  {
    forall i | 0 <= i < |actions| && Acquires(states[i], actions[i]) ::
      states[i].next < |states[i].order| && Count(states[i].waiting, states[i].order[states[i].next]) > 0
  }

  ghost predicate HolderIsPreferred(s: Turns) {
    s.active != "" ==> s.next < |s.order| && s.active == s.order[s.next]
  }

  lemma StepPreferred(s: Turns, a: Action)
    requires Inv(s) && Enabled(s, a) && s.order != [] && HolderIsPreferred(s)
    requires Acquires(s, a) ==> Count(s.waiting, s.order[s.next]) > 0
    ensures HolderIsPreferred(Next(s, a))
    ensures Commits(s, a) ==> s.clients[a.id].key == s.order[s.next]
  {
    if a.Release? && s.clients[a.id].Holding? { TheHolder(s, a.id); }
  }

  lemma IndexOfAt(order: seq<string>, i: nat)
    requires NoDuplicates(order) && i < |order|
    ensures IndexOf(order, order[i]) == i
  {
  }

  ghost predicate InTurn(log: seq<nat>, start: nat, n: nat)
    requires n > 0
  {
    forall j | 0 <= j < |log| :: log[j] == Slot(start, j, n)
  }

  lemma StepInTurn(s: Turns, a: Action, log: seq<nat>, start: nat)
    requires Inv(s) && Enabled(s, a) && s.order != [] && HolderIsPreferred(s)
    requires Acquires(s, a) ==> Count(s.waiting, s.order[s.next]) > 0
    requires InTurn(log, start, |s.order|) && s.next == Slot(start, |log|, |s.order|)
    ensures InTurn(log + Logged(s, a), start, |s.order|)
    ensures Next(s, a).next == Slot(start, |log + Logged(s, a)|, |s.order|)
  {
    StepPreferred(s, a);
    StepTurn(s, a);
    if Commits(s, a) {
      IndexOfAt(s.order, s.next);
      NextTurn(start + |log|, |s.order|);
    }
  }

  /**
   * Round robin: if the preferred target has a waiter at each acquisition, the j-th committed release
   * belongs to position (start + j) mod n, whatever the arrival order, cancellations and failures.
   */
  lemma {:induction false} RoundRobin(states: seq<Turns>, actions: seq<Action>, n: nat)
    requires Run(states, actions) && n < |states| && Inv(states[0]) && states[0].order != [] && states[0].active == ""
    requires PreferredWaits(states, actions)
    ensures HolderIsPreferred(states[n])
    ensures InTurn(CommitLog(states, actions, n), states[0].next, |states[0].order|)
    ensures states[n].next == Slot(states[0].next, |CommitLog(states, actions, n)|, |states[0].order|)
    decreases n
  {
    if n > 0 {
      RoundRobin(states, actions, n - 1);
      RunKeepsInv(states, actions, n - 1);
      StepPreferred(states[n - 1], actions[n - 1]);
      StepInTurn(states[n - 1], actions[n - 1], CommitLog(states, actions, n - 1), states[0].next);
    }
  }

  lemma NextTurn(x: nat, n: nat)
    requires n > 0
    ensures Slot(x % n, 1, n) == (x + 1) % n
  {
    var q, r := x / n, x % n;
    if r + 1 < n {
      RemainderUnique(x + 1, n, q, r + 1);
    } else {
      assert n * (q + 1) == n * q + n;
      RemainderUnique(x + 1, n, q + 1, 0);
    }
  }

  lemma AtLeastOnce(n: nat, d: int)
    requires d >= 1
    ensures n * d >= n
  {
  }

  lemma RemainderUnique(x: int, n: nat, q: int, r: nat)
    requires r < n && x == n * q + r
    ensures x % n == r
  {
    var q', r' := x / n, x % n;
    assert x == n * q' + r';
    if q > q' {
      assert n * q == n * q' + n * (q - q');
      AtLeastOnce(n, q - q');
      assert false;
    }
    if q < q' {
      assert n * q' == n * q + n * (q' - q);
      AtLeastOnce(n, q' - q);
      assert false;
    }
  }

  /** Two such runs with equally many commits converge to the same commit order and the same turn. */
  lemma RunsConverge(
    s1: seq<Turns>, a1: seq<Action>, n1: nat, s2: seq<Turns>, a2: seq<Action>, n2: nat)
    requires Run(s1, a1) && n1 < |s1| && Run(s2, a2) && n2 < |s2| && s1[0] == s2[0]
    requires Inv(s1[0]) && s1[0].order != [] && s1[0].active == ""
    requires PreferredWaits(s1, a1) && PreferredWaits(s2, a2)
    requires |CommitLog(s1, a1, n1)| == |CommitLog(s2, a2, n2)|
    ensures CommitLog(s1, a1, n1) == CommitLog(s2, a2, n2) && s1[n1].next == s2[n2].next
  {
    RoundRobin(s1, a1, n1);
    RoundRobin(s2, a2, n2);
  }

  // ----- The object -----

  class CommitInterleaver {
    const maxSkewWait: int
    var order: seq<string>
    var orderIndex: map<string, nat>
    var active: string
    var next: nat
    var waiting: map<string, int>
    ghost var clients: map<nat, Client>

    ghost function View(): Turns
      reads this
    {
      Turns(order, active, next, waiting, clients)
    }

    ghost predicate Valid()
      reads this
    {
      && Inv(View())
      && (forall i | 0 <= i < |order| :: order[i] in orderIndex)
      && (forall key | key in orderIndex :: orderIndex[key] < |order| && order[orderIndex[key]] == key)
    }

    /** Repeated targets keep their first position. */
    constructor (targets: seq<string>, maxSkewWait: int)
      requires forall i | 0 <= i < |targets| :: targets[i] != ""
      ensures Valid() && this.maxSkewWait == maxSkewWait && View() == Init(order)
      ensures forall key :: key in order <==> key in targets
    {
      this.maxSkewWait := maxSkewWait;
      order, orderIndex, active, next, waiting, clients := [], map[], "", 0, map[], map[];
      new;
      for i := 0 to |targets|
        invariant View() == Init(order) && WellOrdered(order)
        invariant forall key :: key in order <==> key in targets[..i]
        invariant forall key :: key in orderIndex <==> key in order
        invariant forall key | key in orderIndex :: orderIndex[key] < |order| && order[orderIndex[key]] == key
      {
        var key := targets[i];
        assert targets[..i + 1] == targets[..i] + [key];
        if key in orderIndex { continue; }
        orderIndex := orderIndex[key := |order|];
        order := order + [key];
      }
      assert targets[..|targets|] == targets;
      InitInv(order);
    }

    /** Acquire up to its waiting loop; an untracked key passes straight through. */
    method Enter(ghost id: nat, key: string, now: int) returns (tracked: bool, deadline: Option<int>)
      requires Valid() && id !in clients
      modifies this`waiting, this`clients
      ensures Valid() && tracked == (key in order)
      ensures deadline == if maxSkewWait > 0 then Some(now + maxSkewWait) else None
      ensures View() == Next(old(View()), Action.Enter(id, key, deadline))
    {
      deadline := if maxSkewWait > 0 then Some(now + maxSkewWait) else None;
      NextKeepsInv(View(), Action.Enter(id, key, deadline));
      tracked := key in orderIndex;
      if tracked {
        waiting := waiting[key := Count(waiting, key) + 1];
        clients := clients[id := Waiting(key, deadline)];
      } else {
        clients := clients[id := Gone];
      }
    }

    /** One round of the waiting loop. */
    method TryAcquire(ghost id: nat, key: string, deadline: Option<int>, now: int) returns (acquired: bool)
      requires Valid() && id in clients && clients[id] == Waiting(key, deadline)
      modifies this`active, this`waiting, this`clients
      ensures Valid() && acquired == old(Able(View(), id, now))
      ensures View() == Next(old(View()), Action.TryAcquire(id, now))
    {
      NextKeepsInv(View(), Action.TryAcquire(id, now));
      acquired := CanAcquire(order, active, next, waiting, key, deadline, now);
      if acquired {
        waiting := waiting[key := Count(waiting, key) - 1];
        active := key;
        clients := clients[id := Holding(key)];
      }
      assert View() == Next(old(View()), Action.TryAcquire(id, now));
    }

    /** cancelWaiter. */
    method CancelWaiter(ghost id: nat, key: string)
      requires Valid() && id in clients && clients[id].Waiting? && clients[id].key == key
      modifies this`waiting, this`clients
      ensures Valid() && View() == Next(old(View()), Cancel(id))
    {
      NextKeepsInv(View(), Cancel(id));
      if Count(waiting, key) > 0 { waiting := waiting[key := waiting[key] - 1]; }
      clients := clients[id := Gone];
    }

    /** The closure releaseFunc returns; `released` is its captured flag. */
    method Release(ghost id: nat, key: string, released: bool, committed: bool)
      requires Valid() && id in clients && key in order
      requires clients[id] == if released then Gone else Holding(key)
      modifies this`active, this`next, this`clients
      ensures Valid() && View() == Next(old(View()), Action.Release(id, committed))
    {
      NextKeepsInv(View(), Action.Release(id, committed));
      if released { return; }
      if active == key { active := ""; }
      IndexOfAt(order, orderIndex[key]);
      if committed && |order| > 0 { next := (orderIndex[key] + 1) % |order|; }
      clients := clients[id := Gone];
      assert View() == Next(old(View()), Action.Release(id, committed));
    }
  }
}
