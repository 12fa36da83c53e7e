/** When a waiter can be passed over for ever: exactly which arrivals have a bound on the grants made before
    theirs. */
module GateBypass {
  import opened Common
  import opened GateState
  import opened GateSafety
  import opened GateFairness

  /** Limits under which somebody can be admitted at all. */
  ghost predicate Usable(lim: Limits) {
    lim.capacity >= 1 && lim.queuePerKey >= 1 && (lim.perKey.Some? ==> lim.perKey.value >= 1)
  }

  lemma {:induction false} RunConcat(lim: Limits, s: State, a: seq<Step>, b: seq<Step>)
    requires Inv(lim, s) && lim.queuePerKey >= 1
    ensures Run(lim, s, a + b) == Run(lim, Run(lim, s, a), b)
    decreases |a|
  {
    if a == [] {
      assert a + b == b;
    } else {
      NextSafe(lim, s, a[0]);
      assert (a + b)[1..] == a[1..] + b;
      RunConcat(lim, Next(lim, s, a[0]), a[1..], b);
    }
  }

  lemma RunOne(lim: Limits, s: State, step: Step)
    requires Inv(lim, s) && lim.queuePerKey >= 1 && Holds(s)
    ensures Run(lim, s, [step]) == Next(lim, s, step)
  {
    NextSafe(lim, s, step);
    assert [step][1..] == [];
    assert Run(lim, Next(lim, s, step), []) == Next(lim, s, step);
    hide Next, Inv;
  }

  // ---- Arrivals ----------------------------------------------------------------------------

  /** The gate after `b` has asked and been served at once. */
  function Admitted(s: State, b: Key): State {
    s.(inUse := s.inUse + 1, held := s.held[b := GetOr(s.held, b, 0) + 1], turn := s.turn + 1,
      lastServed := s.lastServed[b := s.turn + 1], waiters := s.waiters[s.born := Waiter(b, Granted(s.turn + 1))],
      born := s.born + 1)
  }

  lemma GrantsLast(s: State, b: Key)
    requires Lanes(Enqueue(s, b)) && !Waits(s, b)
    ensures Enqueue(s, b).waiting == s.waiting + [Lane(b, [s.born])]
    ensures Grant(Enqueue(s, b), |s.waiting|) == Admitted(s, b)
  {
    var (e, last) := (Enqueue(s, b), |s.waiting|);
    assert e.waiting == s.waiting + [Lane(b, [s.born])];
    assert e.waiters[s.born := Waiter(b, Granted(s.turn + 1))] == Admitted(s, b).waiters;
    assert [s.born][1..] == [];
    hide Find, LanesOk;
    assert SetQueue(e.waiting, last, []) == s.waiting;
  }

  lemma NobodyElse(lim: Limits, s: State, b: Key)
    requires AtRest(lim, s) && s.inUse < lim.capacity && MayHold(lim, s, b)
    ensures !Waits(s, b)
    ensures Best(lim, Admitted(s, b), |s.waiting|).None?
    ensures Enqueue(s, b).waiting == s.waiting + [Lane(b, [s.born])] ==>
      Best(lim, Enqueue(s, b), |s.waiting| + 1) == Some(|s.waiting|)
  {
    var (e, last, g) := (Enqueue(s, b), |s.waiting|, Admitted(s, b));
    if e.waiting == s.waiting + [Lane(b, [s.born])] {
      assert forall i :: 0 <= i < last ==> e.waiting[i] == s.waiting[i] && !MayHold(lim, e, e.waiting[i].key);
      assert e.waiting[last].key == b && MayHold(lim, e, b);
    }
    assert forall i :: 0 <= i < |g.waiting| ==> g.waiting[i].key != b;
  }

  /** Somebody who may hold a slot while there is one is served at once, and nobody else is. */
  lemma ServedAtOnce(lim: Limits, s: State, b: Key)
    requires Inv(lim, s) && lim.queuePerKey >= 1 && s.inUse < lim.capacity && MayHold(lim, s, b)
    ensures Holds(s) && !Waits(s, b) && !Full(lim, s, b)
    ensures Next(lim, s, Acquire(b)) == Admitted(s, b)
  {
    var (e, last, g) := (Enqueue(s, b), |s.waiting|, Admitted(s, b));
    BalancedHolds(s);
    EnqueueKeepsLanes(s, b);
    NobodyElse(lim, s, b);
    hide Inv, Best, MayHold, LanesOk;
    GrantsLast(s, b);
    GrantKeepsLanes(e, last);
    hide Enqueue, Grant;
    assert Dispatch(lim, g) == g;
  }

  /** Anybody else whose queue has room is put at its end, and nobody is served. */
  lemma OnlyQueued(lim: Limits, s: State, k: Key)
    requires Inv(lim, s) && lim.queuePerKey >= 1 && !Full(lim, s, k)
    requires s.inUse == lim.capacity || !MayHold(lim, s, k)
    ensures Holds(s) && Next(lim, s, Acquire(k)) == Enqueue(s, k)
  {
    var e := Enqueue(s, k);
    BalancedHolds(s);
    EnqueueKeepsLanes(s, k);
    if s.inUse < lim.capacity {
      forall i | 0 <= i < |e.waiting| ensures !MayHold(lim, e, e.waiting[i].key) {
        if i < |s.waiting| {
          assert e.waiting[i].key == s.waiting[i].key;
        }
      }
    }
    hide Balanced, Queued, Memory, LanesOk;
  }

  // ---- A slot that comes free --------------------------------------------------------------

  /** One never-served key's first live waiter is granted; beside that only cancelled futures are popped. */
  ghost predicate ServesNewcomer(s: State, d: State, c: Key, h: Ticket) {
    && c !in s.lastServed
    && h in s.waiters
    && s.waiters[h] == Waiter(c, Pending)
    && FirstLive(s.waiters, Queue(s, c), h)
    && d.turn == s.turn + 1
    && d.inUse == s.inUse + 1
    && d.waiters == s.waiters[h := Waiter(c, Granted(d.turn))]
    && d.lastServed == s.lastServed[c := d.turn]
    && PopsOnly(s, d, c)
  }

  /** No lane is added, and whoever is first in a lane other than `c`'s was first before. */
  ghost predicate PopsOnly(s: State, d: State, c: Key) {
    && (forall x :: Waits(d, x) ==> Waits(s, x))
    && (forall x, t :: x != c && FirstLive(s.waiters, Queue(d, x), t) ==> FirstLive(s.waiters, Queue(s, x), t))
  }

  lemma GrantPopsOnly(s: State, i: nat)
    requires Lanes(s) && i < |s.waiting|
    ensures PopsOnly(s, Grant(s, i), s.waiting[i].key)
  {
    var g := Grant(s, i);
    forall x ensures Waits(g, x) ==> Waits(s, x)
      ensures x != s.waiting[i].key ==> Queue(g, x) == Queue(s, x)
    {
      if x != s.waiting[i].key {
        PassedQueue(s, i, x);
      } else {
        FindIs(s.waiting, i);
      }
    }
    hide Grant, Queue, FirstLive, LanesOk;
  }

  /** Popping a cancelled future. */
  lemma DeadPop(s: State, i: nat, x: Key, t: Ticket)
    requires Lanes(s) && i < |s.waiting| && Grant(s, i).turn == s.turn
    requires FirstLive(s.waiters, Queue(Grant(s, i), x), t)
    ensures FirstLive(s.waiters, Queue(s, x), t)
  {
    var rest := s.waiting[i].queue[1..];
    if x == s.waiting[i].key {
      GrantLanes(s, i);
      TurnCounts(s, i, x);
      FindIs(s.waiting, i);
      SetQueueFinds(s.waiting, i, rest, x);
      hide Grant, SetQueue, LanesOk;
    } else {
      PassedQueue(s, i, x);
      hide Grant, LanesOk;
    }
  }

  lemma AfterPop(s: State, i: nat, d: State, c: Key, h: Ticket)
    requires Lanes(s) && i < |s.waiting| && Grant(s, i).turn == s.turn && ServesNewcomer(Grant(s, i), d, c, h)
    ensures ServesNewcomer(s, d, c, h)
  {
    var g := Grant(s, i);
    TurnCounts(s, i, c);
    GrantPopsOnly(s, i);
    forall x, t | FirstLive(s.waiters, Queue(g, x), t) ensures FirstLive(s.waiters, Queue(s, x), t) {
      DeadPop(s, i, x, t);
    }
    hide Grant, Queue, FirstLive, LanesOk;
  }

  lemma HeadIsFirst(s: State, i: nat, h: Ticket)
    requires Lanes(s) && i < |s.waiting| && h == s.waiting[i].queue[0]
    ensures FirstLive(s.waiters, Queue(s, s.waiting[i].key), h)
  {
    FindIs(s.waiting, i);
    assert LaneOk(s.waiters, s.waiting[i]);
  }

  /** With one slot free and a never-served key waiting, dispatching serves a never-served key and no other. */
  lemma {:induction false} DispatchServes(lim: Limits, s: State, loose: set<Key>, b: Key, tb: Ticket)
    returns (c: Key, h: Ticket)
    requires Core(lim, s, loose) && Usable(lim) && s.inUse + 1 == lim.capacity
    requires tb in s.waiters && s.waiters[tb] == Waiter(b, Pending) && b !in s.lastServed
    ensures ServesNewcomer(s, Dispatch(lim, s), c, h)
    decreases Backlog(s.waiting)
  {
    assert InLane(s.waiting, b, tb);
    assert b !in s.held && MayHold(lim, s, s.waiting[Find(s.waiting, b)].key);
    var best := Best(lim, s, |s.waiting|);
    BestIsUnserved(lim, s, b);
    var i := best.value;
    var g := Grant(s, i);
    GrantKeepsLanes(s, i);
    GrantKeepsCore(lim, s, i, loose);
    TurnCounts(s, i, b);
    assert Dispatch(lim, s) == Dispatch(lim, g);
    if g.turn == s.turn {
      hide Core, Grant;
      c, h := DispatchServes(lim, g, loose, b, tb);
      AfterPop(s, i, Dispatch(lim, g), c, h);
    } else {
      c, h := s.waiting[i].key, s.waiting[i].queue[0];
      assert LaneOk(s.waiters, s.waiting[i]) && h in s.waiting[i].queue;
      HeadIsFirst(s, i, h);
      GrantPopsOnly(s, i);
      hide Core, LanesOk, FirstLive, Queue, PopsOnly;
      assert Dispatch(lim, g) == g;
    }
  }

  lemma ReleaseIs(lim: Limits, s: State, u: Ticket)
    requires Lanes(s) && Unborn(s) && Holds(s) && u in s.waiters && s.waiters[u].status.Granted?
    ensures Lanes(GiveBack(s, u))
    ensures Next(lim, s, Release(u)) == Forget(Dispatch(lim, GiveBack(s, u)), s.waiters[u].key)
  {
    GiveBackKeepsLanes(s, u);
    hide LanesOk, Dispatch, Forget, GiveBack;
  }

  lemma GivesBack(lim: Limits, s: State, u: Ticket, tb: Ticket)
    requires Inv(lim, s) && u in s.waiters && s.waiters[u].status.Granted?
    requires tb in s.waiters && s.waiters[tb].status.Pending?
    ensures Holds(s) && Lanes(s) && Unborn(s)
    ensures var left := GiveBack(s, u);
      && Core(lim, left, {s.waiters[u].key})
      && left.inUse == s.inUse - 1
      && left.lastServed == s.lastServed
      && tb in left.waiters && left.waiters[tb] == s.waiters[tb]
  {
    BalancedHolds(s);
    GiveBackSafe(lim, s, u);
    hide Balanced, LanesOk, Queued, Memory, WithinLimits, AtRest;
  }

  /** A holder leaves a full gate in which never-served `b` waits. */
  lemma ReleaseServes(lim: Limits, s: State, u: Ticket, b: Key, tb: Ticket) returns (c: Key, h: Ticket, d: State)
    requires Inv(lim, s) && Usable(lim) && s.inUse == lim.capacity
    requires u in s.waiters && s.waiters[u].status.Granted?
    requires tb in s.waiters && s.waiters[tb] == Waiter(b, Pending) && b !in s.lastServed
    ensures Holds(s)
    ensures ServesNewcomer(GiveBack(s, u), d, c, h) && Next(lim, s, Release(u)) == Forget(d, s.waiters[u].key)
  {
    GivesBack(lim, s, u, tb);
    hide Inv, Core, LanesOk, Dispatch, Forget, GiveBack, ServesNewcomer, Next;
    ReleaseIs(lim, s, u);
    c, h := DispatchServes(lim, GiveBack(s, u), {s.waiters[u].key}, b, tb);
    d := Dispatch(lim, GiveBack(s, u));
  }

  lemma SomeHolder(lim: Limits, s: State) returns (u: Ticket)
    requires Inv(lim, s) && s.inUse > 0
    ensures u in s.waiters && s.waiters[u].status.Granted?
  {
    assert AllGranted(s.waiters) != {};
    u := Pick(AllGranted(s.waiters));
  }

  // ---- Passed for ever ---------------------------------------------------------------------

  /** A waiter whose key has been served before. */
  ghost predicate Passable(s: State, k: Key, t: Ticket) {
    t in s.waiters && s.waiters[t] == Waiter(k, Pending) && k in s.lastServed
  }

  lemma WaitingWaits(lim: Limits, s: State, k: Key, t: Ticket)
    requires Inv(lim, s) && t in s.waiters && s.waiters[t] == Waiter(k, Pending)
    ensures Waits(s, k) && t < s.born && t in Queue(s, k)
  {
    assert InLane(s.waiting, k, t);
    hide Balanced, LanesOk, Memory, WithinLimits, AtRest;
  }

  /** A key the gate knows nothing of, and would admit. */
  lemma Stranger(lim: Limits, s: State, k: Key) returns (b: Key)
    requires Inv(lim, s) && Usable(lim)
    ensures b != k && b !in s.lastServed && !Waits(s, b) && !Full(lim, s, b) && MayHold(lim, s, b)
  {
    var waiting := set lane | lane in s.waiting :: lane.key;
    b := NewKey(s.lastServed.Keys + waiting + {k});
    assert b !in s.held;
    assert forall i :: 0 <= i < |s.waiting| ==> s.waiting[i] in s.waiting && s.waiting[i].key in waiting;
    hide Balanced, LanesOk, Queued, AtRest;
  }

  /** With room, a stranger is served while `k` may not hold more. */
  lemma PassedWithRoom(lim: Limits, s: State, k: Key, t: Ticket, b: Key) returns (steps: seq<Step>)
    requires Inv(lim, s) && Usable(lim) && Passable(s, k, t) && s.inUse < lim.capacity
    requires b != k && MayHold(lim, s, b)
    ensures var end := Run(lim, s, steps); end.turn == s.turn + 1 && Passable(end, k, t)
  {
    ServedAtOnce(lim, s, b);
    RunOne(lim, s, Acquire(b));
    WaitingWaits(lim, s, k, t);
    hide Inv, Next, Run;
    steps := [Acquire(b)];
  }

  /** In a full gate a stranger queues, a holder leaves, and a never-served key is served before `k`. */
  lemma PassedWhenFull(lim: Limits, s: State, k: Key, t: Ticket, b: Key) returns (steps: seq<Step>)
    requires Inv(lim, s) && Usable(lim) && Passable(s, k, t) && s.inUse == lim.capacity
    requires b != k && b !in s.lastServed && !Full(lim, s, b)
    ensures var end := Run(lim, s, steps); end.turn == s.turn + 1 && Passable(end, k, t)
  {
    OnlyQueued(lim, s, b);
    RunOne(lim, s, Acquire(b));
    WaitingWaits(lim, s, k, t);
    var mid := Run(lim, s, [Acquire(b)]);
    assert mid == Enqueue(s, b);
    hide Next, Run;
    var u := SomeHolder(lim, mid);
    var c, h, d := ReleaseServes(lim, mid, u, b, s.born);
    RunOne(lim, mid, Release(u));
    RunConcat(lim, s, [Acquire(b)], [Release(u)]);
    steps := [Acquire(b)] + [Release(u)];
    StaysPassable(lim, mid, d, u, c, h, k, t, Run(lim, s, steps));
  }

  lemma StaysPassable(lim: Limits, s: State, d: State, u: Ticket, c: Key, h: Ticket, k: Key, t: Ticket, r: State)
    requires Inv(lim, r) && Passable(s, k, t) && u in s.waiters && s.waiters[u].status.Granted? && Holds(s)
    requires ServesNewcomer(GiveBack(s, u), d, c, h) && r == Forget(d, s.waiters[u].key)
    ensures r.turn == s.turn + 1 && Passable(r, k, t)
  {
    hide PopsOnly, FirstLive;
    assert t != h && t != u && r.waiters == d.waiters && t in r.waiters && r.waiters[t] == Waiter(k, Pending);
    WaitingWaits(lim, r, k, t);
  }

  lemma PassOnce(lim: Limits, s: State, k: Key, t: Ticket) returns (steps: seq<Step>)
    requires Inv(lim, s) && Usable(lim) && Passable(s, k, t)
    ensures var end := Run(lim, s, steps); end.turn == s.turn + 1 && Passable(end, k, t)
  {
    var b := Stranger(lim, s, k);
    if s.inUse < lim.capacity {
      steps := PassedWithRoom(lim, s, k, t, b);
    } else {
      steps := PassedWhenFull(lim, s, k, t, b);
    }
  }

  /** A waiter whose key has been served before can be passed any number of times. */
  lemma {:induction false} PassOften(lim: Limits, s: State, k: Key, t: Ticket, n: nat) returns (steps: seq<Step>)
    requires Inv(lim, s) && Usable(lim) && Passable(s, k, t)
    ensures var end := Run(lim, s, steps); end.turn == s.turn + n && Passable(end, k, t)
    decreases n
  {
    if n == 0 {
      steps := [];
    } else {
      var first := PassOnce(lim, s, k, t);
      var rest := PassOften(lim, Run(lim, s, first), k, t, n - 1);
      RunConcat(lim, s, first, rest);
      steps := first + rest;
    }
  }

  // ---- A live waiter ahead in the same queue -----------------------------------------------

  /** A full gate in which never-served `k` has a live waiter before `t`. */
  ghost predicate Blocked(lim: Limits, s: State, k: Key, t: Ticket) {
    && s.inUse == lim.capacity
    && t in s.waiters && s.waiters[t] == Waiter(k, Pending)
    && k !in s.lastServed
    && !FirstLive(s.waiters, Queue(s, k), t)
  }

  ghost function Unserved(s: State): set<Key> {
    set lane | lane in s.waiting && lane.key !in s.lastServed :: lane.key
  }

  lemma UnservedMember(s: State, x: Key)
    ensures x in Unserved(s) <==> Waits(s, x) && x !in s.lastServed
  {
    if Waits(s, x) {
      assert s.waiting[Find(s.waiting, x)] in s.waiting;
    }
  }

  /** A key that is granted is not forgotten in the same section. */
  lemma GrantedKept(lim: Limits, r: State, c: Key, h: Ticket)
    requires Inv(lim, r) && h in r.waiters && r.waiters[h].key == c && r.waiters[h].status.Granted?
    ensures c in r.lastServed
  {
    BalancedHolds(r);
    assert c in r.held;
    hide Balanced, LanesOk, Queued, WithinLimits;
  }

  lemma SameDead(a: map<Ticket, Waiter>, b: map<Ticket, Waiter>, queue: seq<Ticket>, t: Ticket)
    requires FirstLive(a, queue, t) && forall v :: Dead(a, v) ==> Dead(b, v)
    ensures FirstLive(b, queue, t)
  {
    StaysFirst(a, b, queue, t, []);
    assert queue + [] == queue;
  }

  lemma FirstAfterRelease(s: State, u: Ticket, x: Key, t: Ticket)
    requires Holds(s) && u in s.waiters && s.waiters[u].status.Granted?
    ensures FirstLive(GiveBack(s, u).waiters, Queue(GiveBack(s, u), x), t) ==> FirstLive(s.waiters, Queue(s, x), t)
  {
    var left := GiveBack(s, u);
    assert Queue(left, x) == Queue(s, x);
    if FirstLive(left.waiters, Queue(s, x), t) {
      SameDead(left.waiters, s.waiters, Queue(s, x), t);
    }
  }

  lemma FirstBeforeGrant(left: State, d: State, c: Key, h: Ticket, k: Key, t: Ticket)
    requires ServesNewcomer(left, d, c, h) && c != k && FirstLive(d.waiters, Queue(d, k), t)
    ensures FirstLive(left.waiters, Queue(left, k), t)
  {
    SameDead(d.waiters, left.waiters, Queue(d, k), t);
  }

  lemma FewerUnserved(s: State, d: State, r: State, u: Ticket, c: Key, h: Ticket)
    requires Holds(s) && u in s.waiters && s.waiters[u].status.Granted?
    requires ServesNewcomer(GiveBack(s, u), d, c, h) && r == Forget(d, s.waiters[u].key) && c in r.lastServed
    ensures Unserved(r) < Unserved(s)
  {
    assert Queue(GiveBack(s, u), c) != [];
    hide FirstLive;
    assert c in Unserved(s) && c !in Unserved(r) by {
      UnservedMember(r, c);
      UnservedMember(s, c);
    }
    hide Unserved;
    forall x | x in Unserved(r) ensures x in Unserved(s) {
      UnservedMember(r, x);
      UnservedMember(s, x);
      assert Waits(d, x) && Waits(GiveBack(s, u), x);
      assert x !in d.lastServed;
    }
  }

  /** A holder leaves: either `k`'s first live waiter is served, or one never-served key fewer is waiting. */
  lemma ReleaseAdvances(lim: Limits, s: State, d: State, k: Key, t: Ticket, u: Ticket, c: Key, h: Ticket, r: State)
    requires Inv(lim, s) && Inv(lim, r) && Usable(lim) && Blocked(lim, s, k, t) && Holds(s)
    requires u in s.waiters && s.waiters[u].status.Granted?
    requires ServesNewcomer(GiveBack(s, u), d, c, h) && r == Forget(d, s.waiters[u].key)
    ensures r.turn == s.turn + 1
    ensures if c == k then Passable(r, k, t) else Blocked(lim, r, k, t) && Unserved(r) < Unserved(s)
  {
    var left := GiveBack(s, u);
    FirstAfterRelease(s, u, k, t);
    assert t != h && t != u && r.waiters == d.waiters && r.waiters[t] == Waiter(k, Pending);
    GrantedKept(lim, r, c, h);
    if c != k {
      assert Queue(r, k) == Queue(d, k);
      if FirstLive(d.waiters, Queue(d, k), t) {
        FirstBeforeGrant(left, d, c, h, k, t);
      }
      FewerUnserved(s, d, r, u, c, h);
    }
    hide Inv, Unserved, FirstLive, PopsOnly, Queue;
  }

  /** Holders leave until `k`'s first live waiter is served, with `t` still waiting. */
  lemma {:induction false} GetServed(lim: Limits, s: State, k: Key, t: Ticket) returns (steps: seq<Step>)
    requires Inv(lim, s) && Usable(lim) && Blocked(lim, s, k, t)
    ensures var end := Run(lim, s, steps); end.turn >= s.turn && Passable(end, k, t)
    decreases Unserved(s)
  {
    var u := SomeHolder(lim, s);
    var c, h, d := ReleaseServes(lim, s, u, k, t);
    RunOne(lim, s, Release(u));
    var r := Run(lim, s, [Release(u)]);
    hide Run, Next, Inv, Blocked, Unserved;
    ReleaseAdvances(lim, s, d, k, t, u, c, h, r);
    steps := [Release(u)];
    if c != k {
      var rest := GetServed(lim, r, k, t);
      RunConcat(lim, s, steps, rest);
      steps := steps + rest;
    }
  }

  // ---- Exactly when the bypass is bounded --------------------------------------------------

  /** As long as the new waiter of `k` waits, at most `n` grants have been made since it arrived. */
  ghost predicate PassedAtMost(lim: Limits, s: State, k: Key, steps: seq<Step>, n: nat)
    requires Inv(lim, s) && lim.queuePerKey >= 1
  {
    var end := Run(lim, s, [Acquire(k)] + steps);
    StillWaiting(end, s.born) ==> end.turn - s.turn <= n
  }

  ghost predicate NeverPassedBeyond(lim: Limits, s: State, k: Key, n: nat)
    requires Inv(lim, s) && lim.queuePerKey >= 1
  {
    forall steps :: PassedAtMost(lim, s, k, steps, n)
  }

  ghost predicate BypassBounded(lim: Limits, s: State, k: Key)
    requires Inv(lim, s) && lim.queuePerKey >= 1
  {
    exists n: nat :: NeverPassedBeyond(lim, s, k, n)
  }

  /** What is asked at arrival: is a slot free for the key, or is it unknown with no live waiter of its own? */
  ghost predicate Protected(lim: Limits, s: State, k: Key) {
    (s.inUse < lim.capacity && MayHold(lim, s, k)) || (k !in s.lastServed && !LiveWaiter(s, k))
  }

  lemma AdmittedNotPassed(lim: Limits, s: State, k: Key, steps: seq<Step>)
    requires Inv(lim, s) && lim.queuePerKey >= 1 && s.inUse < lim.capacity && MayHold(lim, s, k)
    ensures PassedAtMost(lim, s, k, steps, 0)
  {
    ServedAtOnce(lim, s, k);
    NextSafe(lim, s, Acquire(k));
    assert ([Acquire(k)] + steps)[1..] == steps;
    assert Promise(Admitted(s, k), k, s.born, s.turn);
    hide Next, Inv;
    RunKeepsPromise(lim, Admitted(s, k), steps, k, s.born, s.turn);
  }

  lemma {:induction false} NotFirst(waiters: map<Ticket, Waiter>, queue: seq<Ticket>, u: Ticket, t: Ticket)
    requires u in queue && t !in queue && !Dead(waiters, u)
    ensures !FirstLive(waiters, queue + [t], t)
  {
    if queue[0] != u {
      assert queue == [queue[0]] + queue[1..];
      NotFirst(waiters, queue[1..], u, t);
      assert (queue + [t])[1..] == queue[1..] + [t];
    }
  }

  /** An unprotected arrival is queued with its key remembered, or behind a live waiter of its own. */
  lemma Unprotected(lim: Limits, s: State, k: Key)
    requires Inv(lim, s) && Usable(lim) && !Full(lim, s, k) && !Protected(lim, s, k)
    ensures Run(lim, s, [Acquire(k)]) == Enqueue(s, k) && Inv(lim, Enqueue(s, k))
    ensures Passable(Enqueue(s, k), k, s.born) || Blocked(lim, Enqueue(s, k), k, s.born)
  {
    OnlyQueued(lim, s, k);
    RunOne(lim, s, Acquire(k));
    if k !in s.lastServed {
      assert k !in s.held;
      BlockedBehind(s, k);
    }
    hide Run, Queue, FirstLive, Balanced, LanesOk, Queued;
  }

  lemma BlockedBehind(s: State, k: Key)
    requires Lanes(s) && Unborn(s) && LiveWaiter(s, k)
    ensures !FirstLive(Enqueue(s, k).waiters, Queue(Enqueue(s, k), k), s.born)
  {
    var e := Enqueue(s, k);
    var u :| u in Queue(s, k) && u in s.waiters && s.waiters[u].status.Pending?;
    EnqueueQueue(s, k, k);
    assert LaneOk(s.waiters, s.waiting[Find(s.waiting, k)]);
    assert s.born !in Queue(s, k);
    NotFirst(e.waiters, Queue(s, k), u, s.born);
  }

  lemma PassedBeyond(lim: Limits, s: State, k: Key, n: nat) returns (steps: seq<Step>)
    requires Inv(lim, s) && Usable(lim) && !Full(lim, s, k) && !Protected(lim, s, k)
    ensures !PassedAtMost(lim, s, k, steps, n)
  {
    var (e, t) := (Enqueue(s, k), s.born);
    Unprotected(lim, s, k);
    var first := [];
    if !Passable(e, k, t) {
      first := GetServed(lim, e, k, t);
    }
    var rest := PassOften(lim, Run(lim, e, first), k, t, n + 1);
    RunConcat(lim, e, first, rest);
    steps := first + rest;
    RunConcat(lim, s, [Acquire(k)], steps);
    hide Run, Inv;
  }

  /** Exactly which arrivals cannot be passed without bound: a waiter that is let into the queue is overtaken by at
      most some fixed number of grants, whatever happens, if and only if on its arrival a slot was free for its key,
      or the gate did not remember the key and no live waiter of the key was queueing. */
  lemma BypassBoundedExactly(lim: Limits, s: State, k: Key)
    requires Inv(lim, s) && Usable(lim) && !Full(lim, s, k)
    ensures BypassBounded(lim, s, k) <==> Protected(lim, s, k)
  {
    if Protected(lim, s, k) {
      var n := if s.inUse < lim.capacity && MayHold(lim, s, k) then 0 else |Ahead(s, k)|;
      forall steps ensures PassedAtMost(lim, s, k, steps, n) {
        if s.inUse < lim.capacity && MayHold(lim, s, k) {
          AdmittedNotPassed(lim, s, k, steps);
        } else {
          BoundedBypass(lim, s, k, steps);
        }
      }
      assert NeverPassedBeyond(lim, s, k, n);
    } else {
      forall n: nat ensures !NeverPassedBeyond(lim, s, k, n) {
        var steps := PassedBeyond(lim, s, k, n);
      }
    }
  }
}
