/** How long a newcomer can be passed over. A waiter whose key has no memory of an earlier grant and no live
    waiter ahead of it is passed only by keys of the same kind that were queueing before it, each once. */
module GateFairness {
  import opened Common
  import OrderedDict
  import opened GateState
  import opened GateSafety

  /** The never-served keys queueing ahead of `k`. */
  ghost function Ahead(s: State, k: Key): set<Key> {
    set lane | lane in s.waiting && Find(s.waiting, lane.key) < Find(s.waiting, k) && lane.key !in s.lastServed
      :: lane.key
  }

  ghost predicate IsAhead(s: State, k: Key, x: Key) {
    Waits(s, x) && Find(s.waiting, x) < Find(s.waiting, k) && x !in s.lastServed
  }

  lemma AheadMember(s: State, k: Key, x: Key)
    ensures x in Ahead(s, k) <==> IsAhead(s, k, x)
  {
  }

  /** Pointwise comparison of two states' queues ahead of `k`, as a comparison of counts. */
  lemma FewerAhead(s: State, r: State, k: Key, passed: set<Key>)
    requires forall x :: IsAhead(r, k, x) ==> IsAhead(s, k, x) && x !in passed
    requires forall x :: x in passed ==> IsAhead(s, k, x)
    ensures |Ahead(r, k)| + |passed| <= |Ahead(s, k)|
  {
    forall x ensures (x in Ahead(s, k) <==> IsAhead(s, k, x)) && (x in Ahead(r, k) <==> IsAhead(r, k, x)) {
      AheadMember(s, k, x);
      AheadMember(r, k, x);
    }
    assert Ahead(r, k) !! passed;
    assert |Ahead(r, k) + passed| == |Ahead(r, k)| + |passed|;
    SubsetCardinality(Ahead(r, k) + passed, Ahead(s, k));
  }

  ghost predicate Dead(waiters: map<Ticket, Waiter>, u: Ticket) {
    u in waiters && waiters[u].status.Cancelled?
  }

  /** Every future of the queue before `t` is cancelled. */
  ghost predicate FirstLive(waiters: map<Ticket, Waiter>, queue: seq<Ticket>, t: Ticket) {
    queue != [] && (queue[0] == t || (Dead(waiters, queue[0]) && FirstLive(waiters, queue[1..], t)))
  }

  ghost function Queue(s: State, k: Key): seq<Ticket> {
    if Waits(s, k) then s.waiting[Find(s.waiting, k)].queue else []
  }

  lemma {:induction false} StaysFirst(before: map<Ticket, Waiter>, after: map<Ticket, Waiter>, queue: seq<Ticket>,
    t: Ticket, more: seq<Ticket>)
    requires FirstLive(before, queue, t)
    requires forall u :: u in queue && Dead(before, u) ==> Dead(after, u)
    ensures FirstLive(after, queue + more, t)
  {
    if queue[0] != t {
      assert queue == [queue[0]] + queue[1..];
      assert (queue + more)[1..] == queue[1..] + more;
      StaysFirst(before, after, queue[1..], t, more);
    }
  }

  lemma {:induction false} StaysFirstWithout(waiters: map<Ticket, Waiter>, queue: seq<Ticket>, t: Ticket, u: Ticket)
    requires FirstLive(waiters, queue, t) && OrderedDict.Distinct(queue) && u != t
    ensures FirstLive(waiters - {u}, OrderedDict.Without(queue, u), t)
  {
    if queue[0] == u {
      assert u !in queue[1..];
      StaysFirst(waiters, waiters - {u}, queue[1..], t, []);
      assert queue[1..] + [] == queue[1..];
    } else if queue[0] != t {
      var rest := OrderedDict.Without(queue[1..], u);
      StaysFirstWithout(waiters, queue[1..], t, u);
      assert ([queue[0]] + rest)[1..] == rest;
    }
  }

  /** What is promised about waiter `t` of key `k`: while it waits, the grants made so far and the keys
      that may still pass it stay within `bound`; once granted, at most `bound` grants came first. */
  ghost predicate Promise(s: State, k: Key, t: Ticket, bound: nat) {
    t < s.born &&
    (t in s.waiters ==>
      s.waiters[t].key == k &&
      match s.waiters[t].status
      case Pending =>
        FirstLive(s.waiters, Queue(s, k), t) && k !in s.lastServed && s.turn + |Ahead(s, k)| <= bound
      case Cancelled => true
      case Granted(turn) => turn <= bound + 1)
  }

  ghost predicate StillWaiting(s: State, t: Ticket) {
    t in s.waiters && s.waiters[t].status.Pending?
  }

  /** Where a surviving key's lane ends up when one queue is cut. */
  lemma Shifted(waiting: seq<Lane>, i: nat, queue: seq<Ticket>, x: Key)
    requires i < |waiting| && DistinctKeys(waiting)
    ensures var (r, f) := (SetQueue(waiting, i, queue), Find(waiting, x));
      Find(r, x) < |r| ==> f < |waiting| && Find(r, x) == if queue == [] && f > i then f - 1 else f
    ensures queue == [] ==> Find(SetQueue(waiting, i, queue), waiting[i].key) == |SetQueue(waiting, i, queue)|
  {
    var (r, f) := (SetQueue(waiting, i, queue), Find(waiting, x));
    SetQueueFinds(waiting, i, queue, x);
    SetQueueFinds(waiting, i, queue, waiting[i].key);
    if Find(r, x) < |r| {
      var g := if queue == [] && f > i then f - 1 else f;
      assert r[g].key == waiting[f].key;
      FindIs(r, g);
    }
  }

  /** Cutting one queue lets nobody overtake. */
  lemma OrderKept(waiting: seq<Lane>, i: nat, queue: seq<Ticket>, x: Key, k: Key)
    requires i < |waiting| && DistinctKeys(waiting)
    ensures var r := SetQueue(waiting, i, queue);
      Find(r, x) < Find(r, k) < |r| ==> Find(waiting, x) < Find(waiting, k) < |waiting|
  {
    Shifted(waiting, i, queue, x);
    Shifted(waiting, i, queue, k);
  }

  /** The least key is never behind an unserved one, and is unserved itself. */
  lemma BestIsUnserved(lim: Limits, s: State, k: Key)
    requires Lanes(s) && Memory(s, s.lastServed.Keys) && Waits(s, k) && k !in s.lastServed
    ensures var best := Best(lim, s, |s.waiting|);
      best.Some? ==> best.value <= Find(s.waiting, k) && s.waiting[best.value].key !in s.lastServed
  {
    var best := Best(lim, s, |s.waiting|);
    if best.Some? {
      assert k !in s.held;
      assert MayHold(lim, s, s.waiting[Find(s.waiting, k)].key);
    }
  }

  /** A grant is remembered; popping a cancelled future changes nothing else. */
  lemma TurnCounts(s: State, i: nat, k: Key)
    requires Lanes(s) && i < |s.waiting|
    ensures var (g, ki, head) := (Grant(s, i), s.waiting[i].key, s.waiting[i].queue[0]);
      && g.born == s.born
      && (g.turn == s.turn ==> g == s.(waiting := g.waiting) && Dead(s.waiters, head))
      && (g.turn != s.turn ==>
        && g.turn == s.turn + 1
        && g.inUse == s.inUse + 1
        && g.lastServed == s.lastServed[ki := g.turn]
        && g.waiters == s.waiters[head := Waiter(ki, Granted(g.turn))])
  {
    assert LaneOk(s.waiters, s.waiting[i]);
  }

  lemma GrantLanes(s: State, i: nat)
    requires Lanes(s) && i < |s.waiting|
    ensures s.waiting[i].queue != []
    ensures Grant(s, i).waiting == SetQueue(s.waiting, i, s.waiting[i].queue[1..])
  {
    assert LaneOk(s.waiters, s.waiting[i]);
    hide SetQueue;
  }

  lemma GrantOrders(s: State, i: nat, k: Key)
    requires Lanes(s) && i < |s.waiting| && Waits(Grant(s, i), k)
    ensures forall x :: IsAhead(Grant(s, i), k, x) ==> IsAhead(s, k, x)
  {
    var (g, rest) := (Grant(s, i), s.waiting[i].queue[1..]);
    GrantLanes(s, i);
    assert s.lastServed.Keys <= g.lastServed.Keys;
    hide Grant, SetQueue, LaneOk;
    forall x | IsAhead(g, k, x) ensures IsAhead(s, k, x) {
      OrderKept(s.waiting, i, rest, x, k);
    }
  }

  /** Another key's grant leaves `k`'s lane alone. */
  lemma PassedQueue(s: State, i: nat, k: Key)
    requires Lanes(s) && i < |s.waiting| && s.waiting[i].key != k
    ensures Queue(Grant(s, i), k) == Queue(s, k) && (Waits(Grant(s, i), k) <==> Waits(s, k))
    ensures forall u :: u in Queue(s, k) ==>
      && u in s.waiters
      && u in Grant(s, i).waiters
      && Grant(s, i).waiters[u] == s.waiters[u]
  {
    GrantLanes(s, i);
    TurnCounts(s, i, k);
    SetQueueFinds(s.waiting, i, s.waiting[i].queue[1..], k);
    assert LaneOk(s.waiters, s.waiting[i]) && s.waiting[i].queue[0] in s.waiting[i].queue;
    if Waits(s, k) {
      assert LaneOk(s.waiters, s.waiting[Find(s.waiting, k)]);
    }
    hide SetQueue, LanesOk, Grant;
  }

  /** A grant to a key ahead of `k` uses up that key's one chance to pass. */
  lemma PassedOver(s: State, i: nat, k: Key, t: Ticket, bound: nat)
    requires Lanes(s) && Promise(s, k, t, bound) && StillWaiting(s, t)
    requires i < Find(s.waiting, k) && s.waiting[i].key !in s.lastServed
    ensures Promise(Grant(s, i), k, t, bound)
  {
    var (g, ki) := (Grant(s, i), s.waiting[i].key);
    PassedQueue(s, i, k);
    GrantOrders(s, i, k);
    StaysFirst(s.waiters, g.waiters, Queue(s, k), t, []);
    assert Queue(s, k) + [] == Queue(s, k);
    FindIs(s.waiting, i);
    TurnCounts(s, i, k);
    var passed := if g.turn > s.turn then {ki} else {};
    hide Grant, FirstLive, Queue, LanesOk;
    FewerAhead(s, g, k, passed);
  }

  /** A cancelled future at the head of `k`'s lane makes way. */
  lemma OwnPop(s: State, k: Key, t: Ticket)
    requires Lanes(s) && Waits(s, k) && FirstLive(s.waiters, Queue(s, k), t) && Queue(s, k)[0] != t
    ensures var g := Grant(s, Find(s.waiting, k));
      && g == s.(waiting := g.waiting)
      && Waits(g, k)
      && FirstLive(s.waiters, Queue(g, k), t)
  {
    var i := Find(s.waiting, k);
    var rest := s.waiting[i].queue[1..];
    GrantLanes(s, i);
    TurnCounts(s, i, k);
    assert Queue(s, k) == s.waiting[i].queue && Dead(s.waiters, Queue(s, k)[0]) && FirstLive(s.waiters, rest, t);
    SetQueueFinds(s.waiting, i, rest, k);
    hide Grant, SetQueue, LanesOk;
  }

  /** When `k` itself is chosen, its first live future is granted, or a cancelled one makes way for it. */
  lemma OwnTurn(s: State, k: Key, t: Ticket, bound: nat)
    requires Lanes(s) && Promise(s, k, t, bound) && StillWaiting(s, t)
    ensures Promise(Grant(s, Find(s.waiting, k)), k, t, bound)
  {
    var i := Find(s.waiting, k);
    var g := Grant(s, i);
    if Queue(s, k)[0] != t {
      OwnPop(s, k, t);
      GrantOrders(s, i, k);
      hide Grant, LanesOk, Queue, FirstLive;
      FewerAhead(s, g, k, {});
    } else {
      TurnCounts(s, i, k);
      assert LaneOk(s.waiters, s.waiting[i]);
      hide Grant, LanesOk, LaneOk;
    }
  }

  lemma GrantKeepsPromise(lim: Limits, s: State, k: Key, t: Ticket, bound: nat)
    requires Lanes(s) && Memory(s, s.lastServed.Keys) && Promise(s, k, t, bound)
    requires Best(lim, s, |s.waiting|).Some?
    ensures Promise(Grant(s, Best(lim, s, |s.waiting|).value), k, t, bound)
  {
    var i := Best(lim, s, |s.waiting|).value;
    assert LaneOk(s.waiters, s.waiting[i]);
    hide LaneOk, Memory;
    if StillWaiting(s, t) {
      BestIsUnserved(lim, s, k);
      if i == Find(s.waiting, k) {
        OwnTurn(s, k, t, bound);
      } else {
        PassedOver(s, i, k, t, bound);
      }
    }
  }

  lemma {:induction false} DispatchKeepsPromise(lim: Limits, s: State, loose: set<Key>, k: Key, t: Ticket, bound: nat)
    requires Core(lim, s, loose) && Promise(s, k, t, bound)
    ensures Promise(Dispatch(lim, s), k, t, bound)
    decreases Backlog(s.waiting)
  {
    var best := Best(lim, s, |s.waiting|);
    if s.inUse < lim.capacity && best.Some? {
      GrantKeepsLanes(s, best.value);
      GrantKeepsCore(lim, s, best.value, loose);
      GrantKeepsPromise(lim, s, k, t, bound);
      DispatchKeepsPromise(lim, Grant(s, best.value), loose, k, t, bound);
    }
  }

  /** Sections that grant nothing: nobody new gets ahead of `k`. */
  lemma FramePromise(s: State, r: State, k: Key, t: Ticket, bound: nat)
    requires Promise(s, k, t, bound) && r.turn == s.turn && r.born >= s.born
    requires t in r.waiters ==> t in s.waiters && (r.waiters[t] == s.waiters[t] || r.waiters[t] == Waiter(k, Cancelled))
    requires StillWaiting(r, t) ==> FirstLive(r.waiters, Queue(r, k), t)
    requires StillWaiting(r, t) ==> k !in r.lastServed && forall x :: IsAhead(r, k, x) ==> IsAhead(s, k, x)
    ensures Promise(r, k, t, bound)
  {
    if StillWaiting(r, t) {
      FewerAhead(s, r, k, {});
    }
  }

  lemma ForgetKeepsPromise(s: State, j: Key, k: Key, t: Ticket, bound: nat)
    requires Promise(s, k, t, bound)
    ensures Promise(Forget(s, j), k, t, bound)
  {
    assert Queue(Forget(s, j), k) == Queue(s, k);
    FramePromise(s, Forget(s, j), k, t, bound);
  }

  lemma EnqueueQueue(s: State, j: Key, k: Key)
    requires Lanes(s) && Unborn(s) && Waits(s, k)
    ensures var e := Enqueue(s, j);
      && Find(e.waiting, k) == Find(s.waiting, k)
      && Queue(e, k) == Queue(s, k) + if j == k then [s.born] else []
  {
    EnqueueKeepsLanes(s, j);
    FindIs(Enqueue(s, j).waiting, Find(s.waiting, k));
  }

  lemma EnqueueKeepsPromise(s: State, j: Key, k: Key, t: Ticket, bound: nat)
    requires Lanes(s) && Unborn(s) && Promise(s, k, t, bound)
    ensures Promise(Enqueue(s, j), k, t, bound)
  {
    var e := Enqueue(s, j);
    EnqueueKeepsLanes(s, j);
    if StillWaiting(s, t) {
      EnqueueQueue(s, j, k);
      StaysFirst(s.waiters, e.waiters, Queue(s, k), t, if j == k then [s.born] else []);
      assert Queue(s, k) + [] == Queue(s, k);
      hide FirstLive;
      forall x | IsAhead(e, k, x) ensures IsAhead(s, k, x) {
        assert e.waiting[Find(e.waiting, x)].key == s.waiting[Find(e.waiting, x)].key;
        FindIs(s.waiting, Find(e.waiting, x));
      }
    }
    FramePromise(s, e, k, t, bound);
  }

  lemma CutQueue(s: State, u: Ticket, k: Key, t: Ticket)
    requires Lanes(s) && u in s.waiters && u != t && FirstLive(s.waiters, Queue(s, k), t)
    ensures FirstLive(CutOut(s, u).waiters, Queue(CutOut(s, u), k), t)
  {
    var (j, w) := (s.waiters[u].key, CutOut(s, u));
    var i := Find(s.waiting, j);
    assert LaneOk(s.waiters, s.waiting[Find(s.waiting, k)]);
    if j == k {
      StaysFirstWithout(s.waiters, Queue(s, k), t, u);
      SetQueueFinds(s.waiting, i, OrderedDict.Without(s.waiting[i].queue, u), k);
    } else {
      if i < |s.waiting| {
        SetQueueFinds(s.waiting, i, OrderedDict.Without(s.waiting[i].queue, u), k);
      }
      StaysFirst(s.waiters, w.waiters, Queue(s, k), t, []);
      assert Queue(s, k) + [] == Queue(s, k);
    }
  }

  lemma WithdrawKeepsPromise(s: State, u: Ticket, k: Key, t: Ticket, bound: nat)
    requires Lanes(s) && Promise(s, k, t, bound) && u in s.waiters
    ensures Promise(Withdraw(s, u), k, t, bound)
  {
    var (i, w) := (Find(s.waiting, s.waiters[u].key), CutOut(s, u));
    if StillWaiting(w, t) {
      CutQueue(s, u, k, t);
      hide FirstLive, Queue;
      if i < |s.waiting| {
        var cut := OrderedDict.Without(s.waiting[i].queue, u);
        forall x | IsAhead(w, k, x) ensures IsAhead(s, k, x) {
          OrderKept(s.waiting, i, cut, x, k);
        }
      }
    }
    FramePromise(s, w, k, t, bound);
    ForgetKeepsPromise(w, s.waiters[u].key, k, t, bound);
  }

  /** Steps that only touch the table of waiters. */
  lemma TableKeepsPromise(s: State, r: State, k: Key, t: Ticket, bound: nat)
    requires Promise(s, k, t, bound) && r.turn == s.turn && r.born == s.born
    requires r.waiting == s.waiting && r.lastServed == s.lastServed
    requires t in r.waiters ==> t in s.waiters && (r.waiters[t] == s.waiters[t] || r.waiters[t] == Waiter(k, Cancelled))
    requires forall u :: Dead(s.waiters, u) ==> Dead(r.waiters, u)
    ensures Promise(r, k, t, bound)
  {
    assert Queue(r, k) == Queue(s, k) && Queue(s, k) + [] == Queue(s, k);
    if StillWaiting(r, t) {
      StaysFirst(s.waiters, r.waiters, Queue(s, k), t, []);
    }
    hide FirstLive, Queue;
    FramePromise(s, r, k, t, bound);
  }

  lemma AcquireKeepsPromise(lim: Limits, s: State, j: Key, k: Key, t: Ticket, bound: nat)
    requires Inv(lim, s) && lim.queuePerKey >= 1 && Promise(s, k, t, bound)
    ensures Promise(AcquireStep(lim, s, j), k, t, bound)
  {
    hide Promise;
    if !Full(lim, s, j) {
      EnqueueSafe(lim, s, j);
      EnqueueKeepsPromise(s, j, k, t, bound);
      DispatchKeepsPromise(lim, Enqueue(s, j), {}, k, t, bound);
    }
  }

  lemma CancelKeepsPromise(s: State, u: Ticket, k: Key, t: Ticket, bound: nat)
    requires StillWaiting(s, u) && Promise(s, k, t, bound)
    ensures Promise(CancelStep(s, u), k, t, bound)
  {
    assert t in s.waiters ==> s.waiters[t].key == k;
    hide Promise;
    TableKeepsPromise(s, CancelStep(s, u), k, t, bound);
  }

  lemma ReleaseKeepsPromise(lim: Limits, s: State, u: Ticket, k: Key, t: Ticket, bound: nat)
    requires Inv(lim, s) && Holds(s) && u in s.waiters && s.waiters[u].status.Granted? && Promise(s, k, t, bound)
    ensures Promise(ReleaseStep(lim, s, u), k, t, bound)
  {
    hide Promise;
    GiveBackSafe(lim, s, u);
    TableKeepsPromise(s, GiveBack(s, u), k, t, bound);
    hide Inv, GiveBack;
    DispatchKeepsPromise(lim, GiveBack(s, u), {s.waiters[u].key}, k, t, bound);
    ForgetKeepsPromise(Dispatch(lim, GiveBack(s, u)), s.waiters[u].key, k, t, bound);
  }

  lemma NextKeepsPromise(lim: Limits, s: State, step: Step, k: Key, t: Ticket, bound: nat)
    requires Inv(lim, s) && lim.queuePerKey >= 1 && Holds(s) && Promise(s, k, t, bound)
    ensures Promise(Next(lim, s, step), k, t, bound)
  {
    hide Promise, AcquireStep, CancelStep, ReleaseStep, Withdraw;
    hide Balanced, LanesOk, Queued, Memory, WithinLimits, AtRest;
    match step
    case Acquire(j) => AcquireKeepsPromise(lim, s, j, k, t, bound);
    case Cancel(u) => if StillWaiting(s, u) { CancelKeepsPromise(s, u, k, t, bound); }
    case Abandon(u) =>
      if u in s.waiters && s.waiters[u].status.Granted? { ReleaseKeepsPromise(lim, s, u, k, t, bound); }
      else if u in s.waiters { WithdrawKeepsPromise(s, u, k, t, bound); }
    case Release(u) =>
      if u in s.waiters && s.waiters[u].status.Granted? { ReleaseKeepsPromise(lim, s, u, k, t, bound); }
  }

  lemma {:induction false} RunKeepsPromise(lim: Limits, s: State, steps: seq<Step>, k: Key, t: Ticket, bound: nat)
    requires Inv(lim, s) && lim.queuePerKey >= 1 && Promise(s, k, t, bound)
    ensures Promise(Run(lim, s, steps), k, t, bound)
    decreases |steps|
  {
    if steps != [] {
      NextSafe(lim, s, steps[0]);
      NextKeepsPromise(lim, s, steps[0], k, t, bound);
      RunKeepsPromise(lim, Next(lim, s, steps[0]), steps[1..], k, t, bound);
    }
  }

  /** A waiter of the key's own that has not been cancelled. */
  ghost predicate LiveWaiter(s: State, k: Key) {
    exists u :: u in Queue(s, k) && u in s.waiters && s.waiters[u].status.Pending?
  }

  lemma {:induction false} LastOfDead(waiters: map<Ticket, Waiter>, queue: seq<Ticket>, t: Ticket)
    requires forall u :: u in queue ==> Dead(waiters, u)
    ensures FirstLive(waiters, queue + [t], t)
  {
    if queue != [] {
      assert (queue + [t])[1..] == queue[1..] + [t];
      LastOfDead(waiters, queue[1..], t);
    }
  }

  /** A new waiter behind none or only cancelled ones is its key's first live one. */
  lemma ArrivesFirst(s: State, k: Key)
    requires Lanes(s) && Unborn(s) && !LiveWaiter(s, k)
    ensures FirstLive(Enqueue(s, k).waiters, Queue(Enqueue(s, k), k), s.born)
  {
    var e := Enqueue(s, k);
    EnqueueKeepsLanes(s, k);
    FindIs(e.waiting, Find(s.waiting, k));
    if Waits(s, k) {
      assert LaneOk(s.waiters, s.waiting[Find(s.waiting, k)]);
    }
    assert Queue(e, k) == Queue(s, k) + [s.born];
    LastOfDead(e.waiters, Queue(s, k), s.born);
  }

  lemma ArrivalAhead(s: State, k: Key)
    requires Lanes(s) && Unborn(s)
    ensures |Ahead(Enqueue(s, k), k)| <= |Ahead(s, k)|
  {
    var e := Enqueue(s, k);
    EnqueueKeepsLanes(s, k);
    FindIs(e.waiting, Find(s.waiting, k));
    forall x | IsAhead(e, k, x) ensures IsAhead(s, k, x) {
      assert e.waiting[Find(e.waiting, x)].key == s.waiting[Find(e.waiting, x)].key;
      FindIs(s.waiting, Find(e.waiting, x));
    }
    FewerAhead(s, e, k, {});
  }

  /** Bounded bypass. When a key that is not remembered and has no live waiter of its own asks for a slot, then in
      every later state of every run: as long as it waits, the grants made since its arrival number at most the
      never-served keys queueing ahead of it; and when it is granted, at most that many grants came first. With
      none ahead, the very next grant is its own. */
  lemma BoundedBypass(lim: Limits, s: State, k: Key, steps: seq<Step>)
    requires Inv(lim, s) && lim.queuePerKey >= 1
    requires k !in s.lastServed && !LiveWaiter(s, k) && !Full(lim, s, k)
    ensures var t := s.born;
      var end := Run(lim, s, [Acquire(k)] + steps);
      && end.born > t
      && (t in end.waiters && end.waiters[t].status.Pending? ==> end.turn - s.turn <= |Ahead(s, k)|)
      && (t in end.waiters && end.waiters[t].status.Granted? ==>
        end.waiters[t].status.turn - s.turn - 1 <= |Ahead(s, k)|)
  {
    var (t, e) := (s.born, Enqueue(s, k));
    EnqueueSafe(lim, s, k);
    ArrivesFirst(s, k);
    ArrivalAhead(s, k);
    var bound := s.turn + |Ahead(s, k)|;
    hide FirstLive, Queue;
    DispatchKeepsPromise(lim, e, {}, k, t, bound);
    NextSafe(lim, s, Acquire(k));
    assert ([Acquire(k)] + steps)[1..] == steps;
    RunKeepsPromise(lim, Next(lim, s, Acquire(k)), steps, k, t, bound);
  }
}
