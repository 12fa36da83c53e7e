/** The fair admission gate of `admission.py`, as a value that each await-free section rewrites.

    A waiter is one call of `acquire`. Its future is created by the call, set by a grant, and
    cancelled by the event loop before the waiting task gets to run its own clean-up. The table
    `waiters` holds the futures of calls that still owe the gate something: a clean-up or a release. */
module GateState {
  import opened Common
  import OrderedDict

  type Ticket = nat

  datatype Limits = Limits(capacity: nat, perKey: Option<nat>, queuePerKey: nat)

  /** `Granted` also remembers which grant of the gate it was, counting from one. */
  datatype Status = Pending | Cancelled | Granted(turn: nat)

  datatype Waiter = Waiter(key: Key, status: Status)

  /** One entry of the insertion-ordered dictionary `_waiting`. */
  datatype Lane = Lane(key: Key, queue: seq<Ticket>)

  datatype State = State(
    inUse: int,
    held: map<Key, nat>,
    waiting: seq<Lane>,
    lastServed: map<Key, nat>,
    turn: nat,
    waiters: map<Ticket, Waiter>,
    born: Ticket)

  const EMPTY := State(0, map[], [], map[], 0, map[], 0)

  datatype Step = Acquire(key: Key) | Cancel(ticket: Ticket) | Abandon(ticket: Ticket) | Release(ticket: Ticket)

  // ---- What the code relies on between its sections ---------------------------------------

  ghost predicate DistinctKeys(waiting: seq<Lane>) {
    forall i, j :: 0 <= i < j < |waiting| ==> waiting[i].key != waiting[j].key
  }

  /** A queue is not empty and holds unset or cancelled futures of its own key, each once. */
  ghost predicate LaneOk(waiters: map<Ticket, Waiter>, lane: Lane) {
    && lane.queue != []
    && OrderedDict.Distinct(lane.queue)
    && forall t :: t in lane.queue ==> t in waiters && waiters[t].key == lane.key && !waiters[t].status.Granted?
  }

  ghost predicate LanesOk(waiters: map<Ticket, Waiter>, waiting: seq<Lane>) {
    DistinctKeys(waiting) && forall i :: 0 <= i < |waiting| ==> LaneOk(waiters, waiting[i])
  }

  ghost predicate Lanes(s: State) {
    LanesOk(s.waiters, s.waiting)
  }

  /** A granted future's key has its entry in `_held`. */
  ghost predicate Holds(s: State) {
    forall t :: t in s.waiters && s.waiters[t].status.Granted? ==> GetOr(s.held, s.waiters[t].key, 0) > 0
  }

  // ---- Choosing the next key -------------------------------------------------------------

  predicate MayHold(lim: Limits, s: State, k: Key) {
    lim.perKey.None? || GetOr(s.held, k, 0) < lim.perKey.value
  }

  predicate Before(s: State, a: Key, b: Key) {
    var (ha, hb) := (GetOr(s.held, a, 0), GetOr(s.held, b, 0));
    ha < hb || (ha == hb && GetOr(s.lastServed, a, 0) < GetOr(s.lastServed, b, 0))
  }

  /** The lane `min` settles on among the first `n`: eligible, and the earliest of the least. */
  function Best(lim: Limits, s: State, n: nat): (best: Option<nat>)
    requires n <= |s.waiting|
    ensures best.None? ==> forall i :: 0 <= i < n ==> !MayHold(lim, s, s.waiting[i].key)
    ensures best.Some? ==> best.value < n && MayHold(lim, s, s.waiting[best.value].key)
    ensures best.Some? ==> forall i :: 0 <= i < n && MayHold(lim, s, s.waiting[i].key) ==>
      !Before(s, s.waiting[i].key, s.waiting[best.value].key)
    ensures best.Some? ==> forall i :: 0 <= i < best.value && MayHold(lim, s, s.waiting[i].key) ==>
      Before(s, s.waiting[best.value].key, s.waiting[i].key)
  {
    if n == 0 then None
    else
      var best := Best(lim, s, n - 1);
      var k := s.waiting[n - 1].key;
      if MayHold(lim, s, k) && (best.None? || Before(s, k, s.waiting[best.value].key)) then Some(n - 1) else best
  }

  // ---- Await-free sections ---------------------------------------------------------------

  /** The position of a key's lane, or the number of lanes when it has none. */
  function Find(waiting: seq<Lane>, k: Key): (i: nat)
    ensures i <= |waiting|
    ensures i < |waiting| ==> waiting[i].key == k
    ensures forall j :: 0 <= j < i ==> waiting[j].key != k
  {
    if |waiting| == 0 || waiting[0].key == k then 0
    else
      var rest := Find(waiting[1..], k);
      assert forall j :: 0 < j < |waiting| ==> waiting[j] == waiting[1..][j - 1];
      1 + rest
  }

  predicate Waits(s: State, k: Key) {
    Find(s.waiting, k) < |s.waiting|
  }

  /** Replace a lane's queue; an emptied lane leaves the dictionary. */
  function SetQueue(waiting: seq<Lane>, i: nat, queue: seq<Ticket>): seq<Lane>
    requires i < |waiting|
  {
    if queue == [] then waiting[..i] + waiting[i + 1..] else waiting[i := Lane(waiting[i].key, queue)]
  }

  function Grant(s: State, i: nat): State
    requires Lanes(s) && i < |s.waiting|
  {
    assert LaneOk(s.waiters, s.waiting[i]);
    var k, t := s.waiting[i].key, s.waiting[i].queue[0];
    var popped := SetQueue(s.waiting, i, s.waiting[i].queue[1..]);
    if !s.waiters[t].status.Pending? then s.(waiting := popped)
    else s.(
      waiting := popped,
      inUse := s.inUse + 1,
      held := s.held[k := GetOr(s.held, k, 0) + 1],
      turn := s.turn + 1,
      lastServed := s.lastServed[k := s.turn + 1],
      waiters := s.waiters[t := Waiter(k, Granted(s.turn + 1))])
  }

  function Backlog(waiting: seq<Lane>): nat {
    if |waiting| == 0 then 0 else |waiting[0].queue| + Backlog(waiting[1..])
  }

  lemma {:induction false} BacklogSplit(waiting: seq<Lane>, i: nat)
    requires i < |waiting|
    ensures Backlog(waiting) == Backlog(waiting[..i]) + |waiting[i].queue| + Backlog(waiting[i + 1..])
  {
    if i == 0 {
      assert waiting[..0] == [];
    } else {
      BacklogSplit(waiting[1..], i - 1);
      assert waiting[1..][..i - 1] == waiting[..i][1..];
      assert waiting[1..][i..] == waiting[i + 1..];
    }
  }

  lemma {:induction false} BacklogConcat(a: seq<Lane>, b: seq<Lane>)
    ensures Backlog(a + b) == Backlog(a) + Backlog(b)
  {
    if a == [] {
      assert a + b == b;
    } else {
      BacklogConcat(a[1..], b);
      assert (a + b)[1..] == a[1..] + b;
    }
  }

  /** Every grant takes one future off one queue. */
  lemma SetQueueShrinks(waiting: seq<Lane>, i: nat)
    requires i < |waiting| && waiting[i].queue != []
    ensures Backlog(SetQueue(waiting, i, waiting[i].queue[1..])) == Backlog(waiting) - 1
  {
    var after := SetQueue(waiting, i, waiting[i].queue[1..]);
    BacklogSplit(waiting, i);
    if |waiting[i].queue| == 1 {
      BacklogConcat(waiting[..i], waiting[i + 1..]);
    } else {
      BacklogSplit(after, i);
      assert after[..i] == waiting[..i] && after[i + 1..] == waiting[i + 1..];
    }
  }

  /** Any lane left by `SetQueue` is an old lane, or the edited one under its own key. */
  lemma SetQueueLane(waiting: seq<Lane>, i: nat, queue: seq<Ticket>, j: nat)
    requires i < |waiting| && j < |SetQueue(waiting, i, queue)|
    ensures var lane := SetQueue(waiting, i, queue)[j];
            if j == i && queue != [] then lane == Lane(waiting[i].key, queue)
            else exists o :: 0 <= o < |waiting| && o != i && lane == waiting[o]
  {
    if j != i || queue == [] {
      var o := if queue == [] && j >= i then j + 1 else j;
      assert SetQueue(waiting, i, queue)[j] == waiting[o];
    }
  }

  /** A future popped from its lane is in no lane any more. */
  lemma PoppedLanes(waiters: map<Ticket, Waiter>, waiting: seq<Lane>, i: nat, status: Status)
    requires LanesOk(waiters, waiting) && i < |waiting|
    ensures LaneOk(waiters, waiting[i])
    ensures var (t, after) := (waiting[i].queue[0], SetQueue(waiting, i, waiting[i].queue[1..]));
      LanesOk(waiters, after) && LanesOk(waiters[t := Waiter(waiting[i].key, status)], after)
  {
    assert LaneOk(waiters, waiting[i]);
    var (t, rest) := (waiting[i].queue[0], waiting[i].queue[1..]);
    var after := SetQueue(waiting, i, rest);
    forall j | 0 <= j < |after|
      ensures LaneOk(waiters, after[j]) && LaneOk(waiters[t := Waiter(waiting[i].key, status)], after[j])
    {
      SetQueueLane(waiting, i, rest, j);
      if j == i && rest != [] {
        assert forall u :: u in rest ==> u in waiting[i].queue && u != t;
      } else {
        var o :| 0 <= o < |waiting| && o != i && after[j] == waiting[o];
        assert LaneOk(waiters, waiting[o]);
      }
    }
  }

  lemma GrantKeepsLanes(s: State, i: nat)
    requires Lanes(s) && i < |s.waiting|
    ensures Lanes(Grant(s, i))
    ensures Backlog(Grant(s, i).waiting) < Backlog(s.waiting)
  {
    PoppedLanes(s.waiters, s.waiting, i, Granted(s.turn + 1));
    SetQueueShrinks(s.waiting, i);
    hide LanesOk, SetQueue;
  }

  function Dispatch(lim: Limits, s: State): State
    requires Lanes(s)
    decreases Backlog(s.waiting)
  {
    var best := Best(lim, s, |s.waiting|);
    if s.inUse < lim.capacity && best.Some? then
      GrantKeepsLanes(s, best.value);
      Dispatch(lim, Grant(s, best.value))
    else s
  }

  function Forget(s: State, k: Key): State {
    if k !in s.held && !Waits(s, k) then s.(lastServed := s.lastServed - {k}) else s
  }

  function Enqueue(s: State, k: Key): State {
    var i, t := Find(s.waiting, k), s.born;
    var waiting := if i < |s.waiting| then s.waiting[i := Lane(k, s.waiting[i].queue + [t])]
                   else s.waiting + [Lane(k, [t])];
    s.(waiting := waiting, waiters := s.waiters[t := Waiter(k, Pending)], born := t + 1)
  }

  predicate Full(lim: Limits, s: State, k: Key) {
    var i := Find(s.waiting, k);
    i < |s.waiting| && |s.waiting[i].queue| >= lim.queuePerKey
  }

  ghost predicate Unborn(s: State) {
    forall t :: t in s.waiters ==> t < s.born
  }

  lemma EnqueueKeepsLanes(s: State, k: Key)
    requires Lanes(s) && Unborn(s)
    ensures Lanes(Enqueue(s, k)) && Unborn(Enqueue(s, k))
  {
    var (e, f) := (Enqueue(s, k), Find(s.waiting, k));
    forall j | 0 <= j < |e.waiting| ensures LaneOk(e.waiters, e.waiting[j]) {
      if j < |s.waiting| {
        assert LaneOk(s.waiters, s.waiting[j]);
        assert s.born !in s.waiting[j].queue;
      }
    }
  }

  function AcquireStep(lim: Limits, s: State, k: Key): State
    requires Lanes(s) && Unborn(s)
  {
    EnqueueKeepsLanes(s, k);
    if Full(lim, s, k) then s else Dispatch(lim, Enqueue(s, k))
  }

  /** The books of `release` before it passes the slot on. */
  function GiveBack(s: State, t: Ticket): State
    requires t in s.waiters && GetOr(s.held, s.waiters[t].key, 0) > 0
  {
    var k := s.waiters[t].key;
    s.(inUse := s.inUse - 1,
       held := if s.held[k] > 1 then s.held[k := s.held[k] - 1] else s.held - {k},
       waiters := s.waiters - {t})
  }

  lemma GiveBackKeepsLanes(s: State, t: Ticket)
    requires Lanes(s) && Holds(s) && t in s.waiters && s.waiters[t].status.Granted?
    ensures Lanes(GiveBack(s, t))
  {
    forall j | 0 <= j < |s.waiting| ensures LaneOk(s.waiters - {t}, s.waiting[j]) {
      assert LaneOk(s.waiters, s.waiting[j]);
    }
  }

  function ReleaseStep(lim: Limits, s: State, t: Ticket): State
    requires Lanes(s) && Holds(s) && t in s.waiters && s.waiters[t].status.Granted?
  {
    GiveBackKeepsLanes(s, t);
    Forget(Dispatch(lim, GiveBack(s, t)), s.waiters[t].key)
  }

  /** Take a future out of its key's queue (`queue.remove` with the `ValueError` suppressed) and out of the gate's
      care. */
  function CutOut(s: State, t: Ticket): State
    requires t in s.waiters
  {
    var i := Find(s.waiting, s.waiters[t].key);
    s.(waiting :=
         if i < |s.waiting| then SetQueue(s.waiting, i, OrderedDict.Without(s.waiting[i].queue, t)) else s.waiting,
       waiters := s.waiters - {t})
  }

  /** The part of `_abandon` for a wait that was never granted. */
  function Withdraw(s: State, t: Ticket): State
    requires t in s.waiters
  {
    Forget(CutOut(s, t), s.waiters[t].key)
  }

  function AbandonStep(lim: Limits, s: State, t: Ticket): State
    requires Lanes(s) && Holds(s) && t in s.waiters
  {
    if s.waiters[t].status.Granted? then ReleaseStep(lim, s, t) else Withdraw(s, t)
  }

  /** A task is cancelled, or its timeout fires, while its future is unset. */
  function CancelStep(s: State, t: Ticket): State
    requires t in s.waiters
  {
    s.(waiters := s.waiters[t := Waiter(s.waiters[t].key, Cancelled)])
  }

  /** One step of the gate and the tasks around it; a step that cannot happen changes nothing. */
  function Next(lim: Limits, s: State, step: Step): State
    requires Lanes(s) && Unborn(s) && Holds(s)
  {
    match step
    case Acquire(k) => AcquireStep(lim, s, k)
    case Cancel(t) => if t in s.waiters && s.waiters[t].status.Pending? then CancelStep(s, t) else s
    case Abandon(t) => if t in s.waiters then AbandonStep(lim, s, t) else s
    case Release(t) => if t in s.waiters && s.waiters[t].status.Granted? then ReleaseStep(lim, s, t) else s
  }
}
