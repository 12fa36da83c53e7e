/** The gate as the object that is shared by all requests. Each method is one await-free section and is
    proved to do exactly what the step of the same name does to the gate's state. */
module FairGateObject {
  import opened Common
  import OrderedDict
  import opened GateState
  import opened GateSafety
  import opened GateChoice

  class FairGate {
    const limits: Limits
    var inUse: int
    var held: map<Key, nat>
    var waiting: seq<Lane>
    var lastServed: map<Key, nat>
    var turn: nat
    var waiters: map<Ticket, Waiter>  // the futures of the calls in progress
    var born: Ticket

    ghost function View(): State
      reads this
    {
      State(inUse, held, waiting, lastServed, turn, waiters, born)
    }

    ghost predicate Valid()
      reads this
    {
      limits.queuePerKey >= 1 && Inv(limits, View())
    }

    constructor (limits: Limits)
      requires limits.queuePerKey >= 1
      ensures Valid() && View() == EMPTY && this.limits == limits
    {
      this.limits := limits;
      inUse, held, waiting, lastServed, turn := 0, map[], [], map[], 0;
      waiters, born := map[], 0;
      new;
      EmptySafe(limits);
    }

    /** The waiter's ticket, or nothing when the key's queue is full and the call is refused. */
    method Acquire(key: Key) returns (ticket: Option<Ticket>)
      requires Valid()
      modifies this
      ensures Valid() && View() == AcquireStep(limits, old(View()), key)
      ensures ticket == if Full(limits, old(View()), key) then None else Some(old(born))
    {
      NextSafe(limits, View(), GateState.Acquire(key));
      Ready(limits, View());
      hide Inv, Lanes, Unborn, Dispatch;
      var i := Find(waiting, key);
      if i < |waiting| && |waiting[i].queue| >= limits.queuePerKey {
        return None;
      }
      EnqueueKeepsLanes(View(), key);
      var future := Append(key);
      DispatchAll();
      ticket := Some(future);
    }

    method Append(key: Key) returns (future: Ticket)
      modifies this`waiting, this`waiters, this`born
      ensures View() == Enqueue(old(View()), key) && future == old(born)
    {
      var i := Find(waiting, key);
      future := born;
      born, waiters := born + 1, waiters[future := Waiter(key, Pending)];
      if i < |waiting| {
        waiting := waiting[i := Lane(key, waiting[i].queue + [future])];
      } else {
        waiting := waiting + [Lane(key, [future])];
      }
    }

    /** Returns the slot of a granted call and passes it on. */
    method Release(ticket: Ticket)
      requires Valid() && ticket in waiters && waiters[ticket].status.Granted?
      modifies this
      ensures Valid() && Holds(old(View())) && View() == ReleaseStep(limits, old(View()), ticket)
    {
      NextSafe(limits, View(), GateState.Release(ticket));
      Ready(limits, View());
      hide Inv, Lanes, Holds, Dispatch;
      GiveBackKeepsLanes(View(), ticket);
      var key := waiters[ticket].key;
      CountDown(ticket);
      DispatchAll();
      ForgetIfIdle(key);
    }

    method CountDown(ticket: Ticket)
      requires ticket in waiters && GetOr(held, waiters[ticket].key, 0) > 0
      modifies this
      ensures View() == GiveBack(old(View()), ticket)
    {
      var key := waiters[ticket].key;
      inUse := inUse - 1;
      waiters := waiters - {ticket};
      var remaining := held[key] - 1;
      if remaining > 0 {
        held := held[key := remaining];
      } else {
        held := held - {key};
      }
    }

    /** The clean-up of a call whose wait ended in a timeout or a cancellation. */
    method Abandon(ticket: Ticket)
      requires Valid() && ticket in waiters
      modifies this
      ensures Valid() && Holds(old(View())) && View() == AbandonStep(limits, old(View()), ticket)
    {
      NextSafe(limits, View(), GateState.Abandon(ticket));
      Ready(limits, View());
      hide LanesOk, Balanced, Queued, Memory, WithinLimits, AtRest;
      if waiters[ticket].status.Granted? {
        Release(ticket);
        return;
      }
      var key := waiters[ticket].key;
      waiters := waiters - {ticket};
      var i := Find(waiting, key);
      if i < |waiting| {
        var queue := OrderedDict.Without(waiting[i].queue, ticket);
        if queue == [] {
          waiting := waiting[..i] + waiting[i + 1..];
        } else {
          waiting := waiting[i := Lane(key, queue)];
        }
      }
      ForgetIfIdle(key);
    }

    /** The event loop cancels a future that is still unset. */
    method Cancel(ticket: Ticket)
      requires Valid() && ticket in waiters && waiters[ticket].status.Pending?
      modifies this`waiters
      ensures Valid() && View() == CancelStep(old(View()), ticket)
    {
      NextSafe(limits, View(), GateState.Cancel(ticket));
      waiters := waiters[ticket := Waiter(waiters[ticket].key, Cancelled)];
    }

    method DispatchAll()
      requires Lanes(View())
      modifies this
      ensures View() == Dispatch(limits, old(View()))
    {
      while inUse < limits.capacity
        invariant Lanes(View())
        invariant Dispatch(limits, View()) == Dispatch(limits, old(View()))
        decreases Backlog(waiting)
      {
        var key := NextKey();
        if key == None {
          return;
        }
        ghost var before := View();
        ghost var best := Best(limits, before, |waiting|).value;
        FindIs(waiting, best);
        GrantKeepsLanes(before, best);
        GrantTo(key.value);
      }
    }

    /** The eligible key holding the fewest, then served longest ago, then queueing longest. */
    method NextKey() returns (key: Option<Key>)
      ensures var best := Best(limits, View(), |waiting|);
        key == if best.None? then None else Some(waiting[best.value].key)
      ensures key == None <==> forall i :: 0 <= i < |waiting| ==> !Eligible(limits, View(), waiting[i].key)
      ensures key != None ==> exists i: nat :: Chosen(limits, View(), i) && waiting[i].key == key.value
    {
      hide Chosen, Eligible;
      key := None;
      var i := 0;
      while i < |waiting|
        invariant 0 <= i <= |waiting|
        invariant var best := Best(limits, View(), i);
          key == if best.None? then None else Some(waiting[best.value].key)
      {
        var k := waiting[i].key;
        var (count, last) := (GetOr(held, k, 0), GetOr(lastServed, k, 0));
        if limits.perKey.None? || count < limits.perKey.value {
          if key == None
            || count < GetOr(held, key.value, 0)
            || (count == GetOr(held, key.value, 0) && last < GetOr(lastServed, key.value, 0))
          {
            key := Some(k);
          }
        }
        i := i + 1;
      }
      BestIsChosen(limits, View());
    }

    method GrantTo(key: Key)
      requires Lanes(View()) && Find(waiting, key) < |waiting|
      modifies this
      ensures View() == Grant(old(View()), Find(old(waiting), key))
    {
      var i := Find(waiting, key);
      assert LaneOk(waiters, waiting[i]);
      var future, queue := waiting[i].queue[0], waiting[i].queue[1..];
      if queue == [] {
        waiting := waiting[..i] + waiting[i + 1..];
      } else {
        waiting := waiting[i := Lane(key, queue)];
      }
      if !waiters[future].status.Pending? {
        return;
      }
      inUse := inUse + 1;
      held := held[key := GetOr(held, key, 0) + 1];
      turn := turn + 1;
      lastServed := lastServed[key := turn];
      waiters := waiters[future := Waiter(key, Granted(turn))];
    }

    method ForgetIfIdle(key: Key)
      modifies this`lastServed
      ensures View() == Forget(old(View()), key)
    {
      if key !in held && Find(waiting, key) == |waiting| {
        lastServed := lastServed - {key};
      }
    }
  }
}
