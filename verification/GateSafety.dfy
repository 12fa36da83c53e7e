/** What every interleaving of the gate keeps: its accounts balance, its limits hold, no slot is
    left idle while somebody may take it, and it remembers nothing about keys that went away. */
module GateSafety {
  import opened Common
  import OrderedDict
  import opened GateState

  ghost function GrantedTo(waiters: map<Ticket, Waiter>, k: Key): set<Ticket> {
    set t | t in waiters && waiters[t].key == k && waiters[t].status.Granted?
  }

  ghost function AllGranted(waiters: map<Ticket, Waiter>): set<Ticket> {
    set t | t in waiters && waiters[t].status.Granted?
  }

  /** `_in_use`, `_held` and the granted-but-unreleased waiters are the same count, in total and per key. */
  ghost predicate Balanced(inUse: int, held: map<Key, nat>, waiters: map<Ticket, Waiter>) {
    && inUse == |AllGranted(waiters)| == Sum(held)
    && (forall k :: GetOr(held, k, 0) == |GrantedTo(waiters, k)|)
    && (forall k :: k in held ==> held[k] > 0)
  }

  ghost predicate WithinLimits(lim: Limits, s: State) {
    && s.inUse <= lim.capacity
    && (lim.perKey.Some? ==> forall k :: k in s.held ==> s.held[k] <= lim.perKey.value)
    && (forall i :: 0 <= i < |s.waiting| ==> |s.waiting[i].queue| <= lim.queuePerKey)
  }

  /** Every unset future is in its key's queue. */
  ghost predicate Queued(s: State) {
    forall t :: t in s.waiters && s.waiters[t].status.Pending? ==> InLane(s.waiting, s.waiters[t].key, t)
  }

  ghost predicate InLane(waiting: seq<Lane>, k: Key, t: Ticket) {
    var i := Find(waiting, k);
    i < |waiting| && t in waiting[i].queue
  }

  /** A key with a cancelled future whose task has not cleaned up yet. */
  ghost predicate Draining(waiters: map<Ticket, Waiter>, k: Key) {
    exists t :: t in waiters && waiters[t] == Waiter(k, Cancelled)
  }

  ghost predicate Remembered(s: State, k: Key) {
    k in s.held || Waits(s, k) || Draining(s.waiters, k)
  }

  /** `_last_served` knows every holder and, beside them, only keys that wait or drain. `loose` names
      keys whose `_forget_if_idle` is still to come in the same section. */
  ghost predicate Memory(s: State, loose: set<Key>) {
    && (forall k :: k in s.held ==> k in s.lastServed)
    && (forall k :: k in s.lastServed ==> 1 <= s.lastServed[k] <= s.turn)
    && (forall k :: k in s.lastServed && k !in loose ==> Remembered(s, k))
  }

  /** Work conservation: the gate is full, or nobody who waits may hold one more. */
  ghost predicate AtRest(lim: Limits, s: State) {
    s.inUse == lim.capacity || forall i :: 0 <= i < |s.waiting| ==> !MayHold(lim, s, s.waiting[i].key)
  }

  ghost predicate Core(lim: Limits, s: State, loose: set<Key>) {
    && Balanced(s.inUse, s.held, s.waiters)
    && WithinLimits(lim, s)
    && Lanes(s) && Unborn(s) && Queued(s)
    && Memory(s, loose)
  }

  ghost predicate Inv(lim: Limits, s: State) {
    Core(lim, s, {}) && AtRest(lim, s)
  }

  lemma BalancedHolds(s: State)
    requires Balanced(s.inUse, s.held, s.waiters)
    ensures Holds(s)
  {
    forall t | t in s.waiters && s.waiters[t].status.Granted? ensures GetOr(s.held, s.waiters[t].key, 0) > 0 {
      assert t in GrantedTo(s.waiters, s.waiters[t].key);
    }
  }

  // ---- Frames ----------------------------------------------------------------------------

  /** Sections that grant and release nothing leave the accounts balanced. */
  lemma SameGrants(inUse: int, held: map<Key, nat>, before: map<Ticket, Waiter>, after: map<Ticket, Waiter>)
    requires Balanced(inUse, held, before)
    requires forall t :: (t in before && before[t].status.Granted?) || (t in after && after[t].status.Granted?) ==>
      t in before && t in after && before[t] == after[t]
    ensures Balanced(inUse, held, after)
  {
    assert AllGranted(after) == AllGranted(before);
    forall k ensures GrantedTo(after, k) == GrantedTo(before, k) {}
  }

  /** Cancelled futures of other keys survive, so those keys are still remembered. */
  lemma SameMemory(s: State, r: State, k: Key)
    requires Memory(s, {k}) && r.held == s.held && r.lastServed == s.lastServed && r.turn == s.turn
    requires forall j :: j != k && Waits(s, j) ==> Waits(r, j)
    requires forall t :: t in s.waiters && s.waiters[t].status.Cancelled? && s.waiters[t].key != k ==>
      t in r.waiters && r.waiters[t] == s.waiters[t]
    ensures Memory(r, {k})
  {
  }

  lemma FindIs(waiting: seq<Lane>, i: nat)
    requires i < |waiting| && DistinctKeys(waiting)
    ensures Find(waiting, waiting[i].key) == i
  {
  }

  /** Popping or editing one queue leaves every other key's lane where its key can be found. */
  lemma SetQueueFinds(waiting: seq<Lane>, i: nat, queue: seq<Ticket>, k: Key)
    requires i < |waiting| && DistinctKeys(waiting)
    ensures var r := SetQueue(waiting, i, queue);
      if k == waiting[i].key then
        if queue == [] then Find(r, k) == |r| else Find(r, k) == i && r[i].queue == queue
      else
        (Find(r, k) < |r| <==> Find(waiting, k) < |waiting|) &&
        (Find(r, k) < |r| ==> r[Find(r, k)] == waiting[Find(waiting, k)])
    ensures DistinctKeys(SetQueue(waiting, i, queue))
  {
    var r := SetQueue(waiting, i, queue);
    assert DistinctKeys(r);
    var f := Find(waiting, k);
    if k == waiting[i].key {
      if queue != [] { FindIs(r, i); }
    } else if f < |waiting| {
      var g := if queue == [] && f > i then f - 1 else f;
      assert r[g] == waiting[f];
      FindIs(r, g);
    }
  }

  // ---- Grant and dispatch ----------------------------------------------------------------

  lemma CountsAfterGrant(waiters: map<Ticket, Waiter>, t: Ticket, turn: nat, j: Key)
    requires t in waiters && waiters[t].status.Pending?
    ensures var after := waiters[t := Waiter(waiters[t].key, Granted(turn))];
      && |AllGranted(after)| == |AllGranted(waiters)| + 1
      && |GrantedTo(after, j)| == |GrantedTo(waiters, j)| + if j == waiters[t].key then 1 else 0
  {
    var after := waiters[t := Waiter(waiters[t].key, Granted(turn))];
    assert AllGranted(after) == AllGranted(waiters) + {t};
    assert GrantedTo(after, j) == if j == waiters[t].key then GrantedTo(waiters, j) + {t} else GrantedTo(waiters, j);
  }

  lemma GrantBalances(held: map<Key, nat>, waiters: map<Ticket, Waiter>, inUse: int, t: Ticket, turn: nat)
    requires Balanced(inUse, held, waiters) && t in waiters && waiters[t].status.Pending?
    ensures var k := waiters[t].key;
      Balanced(inUse + 1, held[k := GetOr(held, k, 0) + 1], waiters[t := Waiter(k, Granted(turn))])
  {
    var k := waiters[t].key;
    var (more, after) := (held[k := GetOr(held, k, 0) + 1], waiters[t := Waiter(k, Granted(turn))]);
    SumUpdate(held, k, GetOr(held, k, 0) + 1);
    forall j ensures GetOr(more, j, 0) == |GrantedTo(after, j)| {
      CountsAfterGrant(waiters, t, turn, j);
      assert GetOr(held, j, 0) == |GrantedTo(waiters, j)|;
    }
    CountsAfterGrant(waiters, t, turn, k);
  }

  lemma CountsAfterRelease(waiters: map<Ticket, Waiter>, t: Ticket, j: Key)
    requires t in waiters && waiters[t].status.Granted?
    ensures |AllGranted(waiters - {t})| == |AllGranted(waiters)| - 1
    ensures |GrantedTo(waiters - {t}, j)| == |GrantedTo(waiters, j)| - if j == waiters[t].key then 1 else 0
  {
    assert AllGranted(waiters - {t}) == AllGranted(waiters) - {t};
    assert GrantedTo(waiters - {t}, j) == GrantedTo(waiters, j) - {t};
    assert t in GrantedTo(waiters, j) <==> j == waiters[t].key;
  }

  lemma ReleaseBalances(s: State, t: Ticket)
    requires Balanced(s.inUse, s.held, s.waiters) && t in s.waiters && s.waiters[t].status.Granted? && Holds(s)
    ensures var g := GiveBack(s, t); Balanced(g.inUse, g.held, g.waiters)
  {
    var (k, g) := (s.waiters[t].key, GiveBack(s, t));
    SumUpdate(s.held, k, if s.held[k] > 1 then s.held[k] - 1 else 0);
    forall j ensures GetOr(g.held, j, 0) == |GrantedTo(g.waiters, j)| {
      CountsAfterRelease(s.waiters, t, j);
      assert GetOr(s.held, j, 0) == |GrantedTo(s.waiters, j)|;
    }
    CountsAfterRelease(s.waiters, t, k);
  }

  lemma GrantKeepsQueued(s: State, i: nat)
    requires Lanes(s) && Queued(s) && i < |s.waiting|
    ensures Queued(Grant(s, i))
  {
    var g := Grant(s, i);
    var (t, rest) := (s.waiting[i].queue[0], s.waiting[i].queue[1..]);
    assert s.waiting[i].queue == [t] + rest;
    forall u | u in g.waiters && g.waiters[u].status.Pending? ensures InLane(g.waiting, g.waiters[u].key, u) {
      assert InLane(s.waiting, s.waiters[u].key, u);
      SetQueueFinds(s.waiting, i, rest, s.waiters[u].key);
      FindIs(s.waiting, i);
    }
  }

  lemma GrantKeepsMemory(s: State, i: nat, loose: set<Key>)
    requires Lanes(s) && Memory(s, loose) && i < |s.waiting|
    ensures Memory(Grant(s, i), loose)
  {
    var g := Grant(s, i);
    var (k, t, rest) := (s.waiting[i].key, s.waiting[i].queue[0], s.waiting[i].queue[1..]);
    assert LaneOk(s.waiters, s.waiting[i]);
    forall j | j in g.lastServed && j !in loose ensures Remembered(g, j) {
      SetQueueFinds(s.waiting, i, rest, j);
      if Draining(s.waiters, j) {
        var u :| u in s.waiters && s.waiters[u] == Waiter(j, Cancelled);
        assert u in g.waiters && g.waiters[u] == Waiter(j, Cancelled);
      } else if j == k {
        assert s.waiters[t] != Waiter(k, Cancelled);
      }
    }
  }

  lemma GrantKeepsCore(lim: Limits, s: State, i: nat, loose: set<Key>)
    requires Core(lim, s, loose) && s.inUse < lim.capacity
    requires i < |s.waiting| && MayHold(lim, s, s.waiting[i].key)
    ensures Core(lim, Grant(s, i), loose)
  {
    var g := Grant(s, i);
    assert LaneOk(s.waiters, s.waiting[i]);
    hide LanesOk, LaneOk, Queued, Memory, Balanced;
    GrantKeepsLanes(s, i);
    if s.waiters[s.waiting[i].queue[0]].status.Pending? {
      GrantBalances(s.held, s.waiters, s.inUse, s.waiting[i].queue[0], s.turn + 1);
    }
    GrantKeepsQueued(s, i);
    GrantKeepsMemory(s, i, loose);
    forall j | 0 <= j < |g.waiting| ensures |g.waiting[j].queue| <= lim.queuePerKey {
      SetQueueLane(s.waiting, i, s.waiting[i].queue[1..], j);
    }
  }

  /** Dispatching ends with the gate full or nobody eligible, and breaks none of the accounts. */
  lemma {:induction false} DispatchSafe(lim: Limits, s: State, loose: set<Key>)
    requires Core(lim, s, loose)
    ensures Core(lim, Dispatch(lim, s), loose)
    ensures AtRest(lim, Dispatch(lim, s))
    decreases Backlog(s.waiting)
  {
    var best := Best(lim, s, |s.waiting|);
    if s.inUse < lim.capacity && best.Some? {
      GrantKeepsLanes(s, best.value);
      GrantKeepsCore(lim, s, best.value, loose);
      DispatchSafe(lim, Grant(s, best.value), loose);
    }
  }

  // ---- The steps -------------------------------------------------------------------------

  lemma ForgetSafe(lim: Limits, s: State, k: Key)
    requires Core(lim, s, {k}) && AtRest(lim, s)
    ensures Inv(lim, Forget(s, k))
  {
    var f := Forget(s, k);
    forall j | j in f.lastServed ensures Remembered(f, j) {
      assert j != k ==> Remembered(s, j);
    }
  }

  lemma EnqueueKeepsQueued(s: State, k: Key)
    requires Lanes(s) && Unborn(s) && Queued(s)
    ensures Queued(Enqueue(s, k))
  {
    var e := Enqueue(s, k);
    EnqueueKeepsLanes(s, k);
    FindIs(e.waiting, Find(s.waiting, k));
    forall t | t in e.waiters && e.waiters[t].status.Pending? ensures InLane(e.waiting, e.waiters[t].key, t) {
      if t in s.waiters {
        assert InLane(s.waiting, s.waiters[t].key, t);
        FindIs(e.waiting, Find(s.waiting, s.waiters[t].key));
      }
    }
  }

  lemma EnqueueFinds(s: State, k: Key, j: Key)
    requires Lanes(s) && Unborn(s)
    ensures Waits(s, j) ==> Waits(Enqueue(s, k), j)
    ensures Waits(Enqueue(s, k), k)
  {
    EnqueueKeepsLanes(s, k);
    var e := Enqueue(s, k);
    FindIs(e.waiting, Find(s.waiting, k));
    if Waits(s, j) { FindIs(e.waiting, Find(s.waiting, j)); }
  }

  lemma EnqueueKeepsMemory(s: State, k: Key)
    requires Lanes(s) && Unborn(s) && Memory(s, {})
    ensures Memory(Enqueue(s, k), {})
  {
    hide LanesOk, Waits;
    forall j ensures Waits(s, j) ==> Waits(Enqueue(s, k), j) {
      EnqueueFinds(s, k, j);
    }
    EnqueueFinds(s, k, k);
    SameMemory(s, Enqueue(s, k), k);
  }

  lemma EnqueueSafe(lim: Limits, s: State, k: Key)
    requires Inv(lim, s) && !Full(lim, s, k) && lim.queuePerKey >= 1
    ensures Core(lim, Enqueue(s, k), {})
  {
    EnqueueKeepsLanes(s, k);
    SameGrants(s.inUse, s.held, s.waiters, Enqueue(s, k).waiters);
    EnqueueKeepsQueued(s, k);
    EnqueueKeepsMemory(s, k);
    hide Balanced, LanesOk, Queued, Memory;
  }

  lemma GiveBackSafe(lim: Limits, s: State, t: Ticket)
    requires Inv(lim, s) && Holds(s) && t in s.waiters && s.waiters[t].status.Granted?
    ensures Core(lim, GiveBack(s, t), {s.waiters[t].key})
  {
    var (k, g) := (s.waiters[t].key, GiveBack(s, t));
    GiveBackKeepsLanes(s, t);
    ReleaseBalances(s, t);
    assert Queued(g) by {
      forall u | u in g.waiters && g.waiters[u].status.Pending? ensures InLane(g.waiting, g.waiters[u].key, u) {
        assert InLane(s.waiting, s.waiters[u].key, u);
      }
    }
    SameMemory(s, g.(held := s.held), k);
    assert forall j :: j != k && Remembered(g.(held := s.held), j) ==> Remembered(g, j);
  }

  /** Once a waiter is withdrawn its future is in no queue, and all other queues are as they were. */
  lemma CutLanes(s: State, t: Ticket)
    requires Lanes(s) && t in s.waiters && !s.waiters[t].status.Granted?
    ensures Lanes(CutOut(s, t))
  {
    var i := Find(s.waiting, s.waiters[t].key);
    if i < |s.waiting| {
      var cut := OrderedDict.Without(s.waiting[i].queue, t);
      var after := SetQueue(s.waiting, i, cut);
      assert LaneOk(s.waiters, s.waiting[i]);
      OrderedDict.WithoutDistinct(s.waiting[i].queue, t);
      forall j | 0 <= j < |after| ensures LaneOk(s.waiters - {t}, after[j]) {
        SetQueueLane(s.waiting, i, cut, j);
        if j != i || cut == [] {
          var o :| 0 <= o < |s.waiting| && o != i && after[j] == s.waiting[o];
          assert LaneOk(s.waiters, s.waiting[o]);
        }
      }
      SetQueueFinds(s.waiting, i, cut, s.waiters[t].key);
    } else {
      forall j | 0 <= j < |s.waiting| ensures LaneOk(s.waiters - {t}, s.waiting[j]) {
        assert LaneOk(s.waiters, s.waiting[j]);
      }
    }
  }

  /** Other keys' lanes can be found as before. */
  lemma CutFinds(s: State, t: Ticket, k: Key)
    requires Lanes(s) && t in s.waiters
    ensures var c := CutOut(s, t);
      k != s.waiters[t].key ==>
        (Waits(s, k) <==> Waits(c, k)) &&
        (Waits(c, k) ==> c.waiting[Find(c.waiting, k)] == s.waiting[Find(s.waiting, k)])
    ensures forall u :: u != t && InLane(s.waiting, k, u) ==> InLane(CutOut(s, t).waiting, k, u)
  {
    var i := Find(s.waiting, s.waiters[t].key);
    if i < |s.waiting| {
      SetQueueFinds(s.waiting, i, OrderedDict.Without(s.waiting[i].queue, t), k);
    }
  }

  lemma CutKeepsQueued(s: State, t: Ticket)
    requires Lanes(s) && Queued(s) && t in s.waiters
    ensures Queued(CutOut(s, t))
  {
    var c := CutOut(s, t);
    forall u | u in c.waiters && c.waiters[u].status.Pending? ensures InLane(c.waiting, c.waiters[u].key, u) {
      assert InLane(s.waiting, s.waiters[u].key, u);
      CutFinds(s, t, s.waiters[u].key);
    }
  }

  lemma CutKeepsMemory(s: State, t: Ticket)
    requires Lanes(s) && Memory(s, {}) && t in s.waiters
    ensures Memory(CutOut(s, t), {s.waiters[t].key})
  {
    forall j ensures j != s.waiters[t].key && Waits(s, j) ==> Waits(CutOut(s, t), j) {
      CutFinds(s, t, j);
    }
    hide Waits, LanesOk;
    SameMemory(s, CutOut(s, t), s.waiters[t].key);
  }

  lemma CutKeepsLimits(lim: Limits, s: State, t: Ticket)
    requires Lanes(s) && WithinLimits(lim, s) && AtRest(lim, s) && t in s.waiters
    ensures WithinLimits(lim, CutOut(s, t)) && AtRest(lim, CutOut(s, t))
  {
    var (c, i) := (CutOut(s, t), Find(s.waiting, s.waiters[t].key));
    forall j | 0 <= j < |c.waiting|
      ensures |c.waiting[j].queue| <= lim.queuePerKey && (s.inUse < lim.capacity ==> !MayHold(lim, c, c.waiting[j].key))
    {
      if i < |s.waiting| { SetQueueLane(s.waiting, i, OrderedDict.Without(s.waiting[i].queue, t), j); }
    }
  }

  lemma WithdrawSafe(lim: Limits, s: State, t: Ticket)
    requires Inv(lim, s) && t in s.waiters && !s.waiters[t].status.Granted?
    ensures Inv(lim, Withdraw(s, t))
  {
    CutLanes(s, t);
    CutKeepsQueued(s, t);
    CutKeepsMemory(s, t);
    CutKeepsLimits(lim, s, t);
    SameGrants(s.inUse, s.held, s.waiters, s.waiters - {t});
    hide Balanced, LanesOk, Queued, Memory, WithinLimits, AtRest;
    ForgetSafe(lim, CutOut(s, t), s.waiters[t].key);
  }

  lemma CancelKeepsLanes(s: State, t: Ticket)
    requires Lanes(s) && Queued(s) && t in s.waiters && s.waiters[t].status.Pending?
    ensures Lanes(CancelStep(s, t)) && Queued(CancelStep(s, t))
  {
  }

  lemma CancelSafe(lim: Limits, s: State, t: Ticket)
    requires Inv(lim, s) && t in s.waiters && s.waiters[t].status.Pending?
    ensures Inv(lim, CancelStep(s, t))
  {
    var c := CancelStep(s, t);
    SameGrants(s.inUse, s.held, s.waiters, c.waiters);
    CancelKeepsLanes(s, t);
    hide Balanced, LanesOk, Queued;
    SameMemory(s, c, s.waiters[t].key);
    assert Draining(c.waiters, s.waiters[t].key) by { assert c.waiters[t] == Waiter(s.waiters[t].key, Cancelled); }
  }

  lemma ReleaseSafe(lim: Limits, s: State, t: Ticket)
    requires Inv(lim, s) && Holds(s) && t in s.waiters && s.waiters[t].status.Granted?
    ensures Inv(lim, ReleaseStep(lim, s, t))
  {
    var k := s.waiters[t].key;
    GiveBackSafe(lim, s, t);
    DispatchSafe(lim, GiveBack(s, t), {k});
    ForgetSafe(lim, Dispatch(lim, GiveBack(s, t)), k);
  }

  /** Whatever happens next, the gate's invariant survives it. */
  lemma NextSafe(lim: Limits, s: State, step: Step)
    requires Inv(lim, s) && lim.queuePerKey >= 1
    ensures Holds(s)
    ensures Inv(lim, Next(lim, s, step))
  {
    BalancedHolds(s);
    match step
    case Acquire(k) =>
      if !Full(lim, s, k) {
        EnqueueSafe(lim, s, k);
        DispatchSafe(lim, Enqueue(s, k), {});
      }
    case Cancel(t) => if t in s.waiters && s.waiters[t].status.Pending? { CancelSafe(lim, s, t); }
    case Abandon(t) =>
      if t in s.waiters && s.waiters[t].status.Granted? { ReleaseSafe(lim, s, t); }
      else if t in s.waiters { WithdrawSafe(lim, s, t); }
    case Release(t) => if t in s.waiters && s.waiters[t].status.Granted? { ReleaseSafe(lim, s, t); }
  }

  /** What the sections of the code may rely on when they start. */
  lemma Ready(lim: Limits, s: State)
    requires Inv(lim, s)
    ensures Lanes(s) && Unborn(s) && Holds(s)
  {
    BalancedHolds(s);
  }

  /** Every run, of any length and any interleaving. */
  ghost function Run(lim: Limits, s: State, steps: seq<Step>): (end: State)
    requires Inv(lim, s) && lim.queuePerKey >= 1
    ensures Inv(lim, end)
    decreases |steps|
  {
    if steps == [] then s
    else
      NextSafe(lim, s, steps[0]);
      Run(lim, Next(lim, s, steps[0]), steps[1..])
  }

  lemma EmptySafe(lim: Limits)
    ensures Inv(lim, EMPTY)
  {
  }

  /** The safety theorem read off the invariant, for a gate that starts empty. */
  lemma GateSafe(lim: Limits, steps: seq<Step>)
    requires lim.queuePerKey >= 1
    ensures Inv(lim, EMPTY)
    ensures var s := Run(lim, EMPTY, steps);
      && s.inUse == Sum(s.held) == |AllGranted(s.waiters)| <= lim.capacity
      && (lim.perKey.Some? ==> forall k :: |GrantedTo(s.waiters, k)| <= lim.perKey.value)
      && (s.inUse < lim.capacity ==>
        forall i :: 0 <= i < |s.waiting| ==>
          lim.perKey.Some? && GetOr(s.held, s.waiting[i].key, 0) >= lim.perKey.value)
      && (forall i :: 0 <= i < |s.waiting| ==> s.waiting[i].queue != [])
      && ((forall t :: t in s.waiters ==> !s.waiters[t].status.Cancelled?) ==>
        forall k :: k in s.lastServed ==> k in s.held || Waits(s, k))
  {
    EmptySafe(lim);
    var s := Run(lim, EMPTY, steps);
    forall i | 0 <= i < |s.waiting| ensures s.waiting[i].queue != [] {
      assert LaneOk(s.waiters, s.waiting[i]);
    }
    forall k ensures lim.perKey.Some? ==> |GrantedTo(s.waiters, k)| <= lim.perKey.value {
      assert GetOr(s.held, k, 0) == |GrantedTo(s.waiters, k)|;
    }
    assert forall k :: k in s.lastServed ==> Remembered(s, k);
  }

  lemma LaneHasWaiter(s: State)
    requires Lanes(s) && s.waiting != []
    ensures s.waiters != map[]
  {
    assert LaneOk(s.waiters, s.waiting[0]) && s.waiting[0].queue[0] in s.waiting[0].queue;
  }

  /** When every call has finished, nothing at all is left behind. */
  lemma NothingLeftBehind(lim: Limits, s: State)
    requires Inv(lim, s) && s.waiters == map[]
    ensures s.inUse == 0 && s.held == map[] && s.waiting == [] && s.lastServed == map[]
  {
    assert AllGranted(s.waiters) == {};
    forall k ensures k !in s.held {
      assert GrantedTo(s.waiters, k) == {};
    }
    assert s.held.Keys == {};
    if s.waiting != [] { LaneHasWaiter(s); }
    assert forall k :: k in s.lastServed ==> Remembered(s, k);
    assert s.lastServed.Keys == {};
  }
}
