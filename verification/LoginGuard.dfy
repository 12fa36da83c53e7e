/** The login guard as the object all requests share. Each method is one await-free section, proved to do
    exactly what the step of the same name does. */
module LoginGuardObject {
  import opened Common
  import opened OrderedDict
  import opened LoginState
  import opened LoginSafety

  lemma LineHolds(p: Policy, s: State)
    requires Inv(p, s)
    ensures LineOk(p, s.waiting, s.tasks)
  {
  }

  class LoginGuard {
    const policy: Policy
    var order: seq<FailureKey>
    var entries: map<FailureKey, Entry>
    var flights: map<Key, nat>
    var locks: map<Key, nat>
    var waiting: map<Key, nat>
    // The event loop's side: the clock, futures, lock holders and suspended tasks.
    var clock: real
    var futures: map<nat, Flight>
    var holders: map<nat, nat>
    var tasks: map<nat, Task>
    var results: map<nat, Result>
    var born: nat

    ghost function View(): State
      reads this
    {
      State(clock, Dict(order, entries), flights, futures, locks, holders, waiting, tasks, results, born)
    }

    ghost predicate Valid()
      reads this
    {
      Inv(policy, View())
    }

    constructor (policy: Policy)
      ensures Valid() && View() == EMPTY && this.policy == policy
    {
      this.policy := policy;
      order, entries, flights, locks, waiting := [], map[], map[], map[], map[];
      clock, futures, holders, tasks, results, born := 0.0, map[], map[], map[], map[], 0;
      new;
      EmptySafe(policy);
    }

    /** `_count`: looking up forgets an expired entry. */
    method CountOf(key: FailureKey) returns (count: nat)
      modifies this`order, this`entries
      ensures count == Count(policy, old(View()).failures, key, clock)
      ensures Dict(order, entries) == Purge(policy, old(View()).failures, key, clock)
    {
      if key !in entries {
        return 0;
      }
      if clock - entries[key].last > policy.forgetAfter {
        order, entries := Without(order, key), entries - {key};
        return 0;
      }
      count := entries[key].count;
    }

    method DelayOf(address: Key, user: Key) returns (delay: real)
      modifies this`order, this`entries
      ensures delay == Delay(policy, old(View()).failures, address, user, clock)
      ensures Dict(order, entries) == AfterDelay(policy, old(View()).failures, address, user, clock)
    {
      var own := CountOf(AccountKey(address, user));
      var fromAddress := CountOf(AddressKey(address));
      var shared := fromAddress - policy.grace;
      var exponent := if own >= shared then own else shared;
      if exponent <= 0 {
        return 0.0;
      }
      delay := MinReal(policy.max, Doubled(policy.base, if exponent - 1 <= 16 then exponent - 1 else 16));
    }

    /** `_record_failure`: both counts go up, and the oldest entries make room. */
    method RecordFailure(address: Key, user: Key)
      modifies this`order, this`entries
      ensures Dict(order, entries) == Record(policy, old(View()).failures, address, user, clock)
    {
      ghost var before := View().failures;
      var keys := [AddressKey(address), AccountKey(address, user)];
      var i := 0;
      while i < 2
        invariant 0 <= i <= 2
        invariant Dict(order, entries) ==
          if i == 0 then before
          else if i == 1 then Bump(policy, before, keys[0], clock)
          else Bump(policy, Bump(policy, before, keys[0], clock), keys[1], clock)
      {
        var kept := keys[i] in entries && clock - entries[keys[i]].last <= policy.forgetAfter;
        var count := if kept then entries[keys[i]].count else 0;
        order, entries := Without(order, keys[i]) + [keys[i]], entries[keys[i] := Entry(count + 1, clock)];
        i := i + 1;
      }
      while |order| > policy.maxKeys
        invariant Trim(Dict(order, entries), policy.maxKeys) == Record(policy, before, address, user, clock)
      {
        order, entries := order[1..], entries - {order[0]};
      }
    }

    /** A request comes in: it follows a flight of its credential, or leads one. */
    method Arrive(address: Key, user: Key, cred: Key) returns (task: nat)
      requires Valid()
      modifies this
      ensures Valid() && View() == Next(policy, old(View()), LoginState.Arrive(address, user, cred))
      ensures task == old(born)
    {
      hide Inv, Lead;
      NextSafe(policy, View(), LoginState.Arrive(address, user, cred));
      task := born;
      born := born + 1;
      Enter(task, address, user, cred);
    }

    /** A follower whose flight ended shares its outcome, or verifies again. */
    method Land(task: nat)
      requires Valid() && Enabled(View(), LoginState.Land(task))
      modifies this
      ensures Valid() && View() == LandStep(policy, old(View()), task)
    {
      hide Inv, Lead;
      NextSafe(policy, View(), LoginState.Land(task));
      var t := tasks[task];
      match futures[t.flight]
      case InFlight =>
      case Dropped =>
        tasks := tasks - {task};
        Enter(task, t.address, t.user, t.cred);
      case Landed(outcome) =>
        tasks, results := tasks - {task}, results[task := Result(t.flight, outcome)];
    }

    method Enter(task: nat, address: Key, user: Key, cred: Key)
      modifies this
      ensures View() == Verify(policy, old(View()), task, address, user, cred)
    {
      if cred in flights {
        tasks := tasks[task := Task(address, user, cred, flights[cred], 0, Following)];
      } else {
        StartLead(task, address, user, cred);
      }
    }

    method StartLead(task: nat, address: Key, user: Key, cred: Key)
      modifies this
      ensures View() == Lead(policy, old(View()), task, address, user, cred)
    {
      var flight := OpenFlight(cred);
      if GetOr(waiting, address, 0) >= policy.maxWaiting {
        tasks := tasks[task := Task(address, user, cred, flight, 0, TurnedAway)];
      } else {
        var lock := JoinLine(address, flight + 1);
        tasks := tasks[task := Task(address, user, cred, flight, lock, Queued)];
      }
    }

    method OpenFlight(cred: Key) returns (flight: nat)
      modifies this`flights, this`futures, this`born
      ensures flight == old(born) && born == flight + 2
      ensures flights == old(flights)[cred := flight] && futures == old(futures)[flight := InFlight]
    {
      flight := born;
      flights, futures, born := flights[cred := flight], futures[flight := InFlight], born + 2;
    }

    /** Count the attempt and share the address's lock, which `setdefault` creates when there is none. */
    method JoinLine(address: Key, newLock: nat) returns (lock: nat)
      modifies this`waiting, this`locks
      ensures lock == GetOr(old(locks), address, newLock)
      ensures waiting == old(waiting)[address := GetOr(old(waiting), address, 0) + 1]
      ensures locks == old(locks)[address := lock]
    {
      waiting := waiting[address := GetOr(waiting, address, 0) + 1];
      lock := GetOr(locks, address, newLock);
      locks := locks[address := lock];
    }

    /** The address's lock is free: take it and sleep off the delay. */
    method Grab(task: nat)
      requires Valid() && Enabled(View(), LoginState.Grab(task))
      modifies this
      ensures Valid() && View() == GrabStep(policy, old(View()), task)
    {
      hide Inv, Delay, AfterDelay;
      NextSafe(policy, View(), LoginState.Grab(task));
      var t := tasks[task];
      holders := holders[t.lock := task];
      var delay := DelayOf(t.address, t.user);
      var phase := if delay != 0.0 then Sleeping(clock + delay) else Checking;
      tasks := tasks[task := t.(phase := phase)];
    }

    method Deny(task: nat, error: nat)
      requires Valid() && Enabled(View(), LoginState.Deny(task, error))
      modifies this
      ensures Valid() && View() == DenyStep(policy, old(View()), task, error)
    {
      hide Inv, Record;
      NextSafe(policy, View(), LoginState.Deny(task, error));
      RecordFailure(tasks[task].address, tasks[task].user);
      tasks := tasks[task := tasks[task].(phase := Reporting(error))];
    }

    method Approve(task: nat, signed: Key)
      requires Valid() && Enabled(View(), LoginState.Approve(task, signed))
      modifies this
      ensures Valid() && View() == ApproveStep(old(View()), task, signed)
    {
      hide Inv, Settle;
      LineHolds(policy, View());
      NextSafe(policy, View(), LoginState.Approve(task, signed));
      var key := AccountKey(tasks[task].address, tasks[task].user);
      order, entries := Without(order, key), entries - {key};
      End(task, Landed(Signed(signed)));
    }

    /** A refusal looks the delay up for its `Retry-After`, which may forget expired failures. */
    method Refuse(task: nat, error: nat) returns (retryAfter: real)
      requires Valid() && Enabled(View(), LoginState.Refuse(task, error))
      modifies this
      ensures Valid() && View() == RefuseStep(policy, old(View()), task, error)
      ensures var t := old(tasks)[task];
        var delay := Delay(policy, old(View()).failures, t.address, t.user, old(clock));
        retryAfter == if delay == 0.0 then 5.0 else delay
    {
      hide Inv, Settle, Delay, AfterDelay;
      LineHolds(policy, View());
      NextSafe(policy, View(), LoginState.Refuse(task, error));
      retryAfter := DelayOf(tasks[task].address, tasks[task].user);
      if retryAfter == 0.0 {
        retryAfter := 5.0;
      }
      End(task, Landed(Raised(error)));
    }

    method Cancel(task: nat)
      requires Valid() && task in tasks
      modifies this
      ensures Valid() && View() == CancelStep(old(View()), task)
    {
      hide Inv, Settle;
      LineHolds(policy, View());
      NextSafe(policy, View(), LoginState.Cancel(task));
      if tasks[task].phase == Following {
        tasks := tasks - {task};
      } else {
        End(task, Dropped);
      }
    }

    /** The end of `_lead`: once the attempt is left, settle the flight and unregister it. */
    method End(task: nat, flight: Flight)
      requires task in tasks && LineOk(policy, waiting, tasks)
      modifies this
      ensures View() == Settle(old(View()), task, flight)
    {
      hide LineOk, Leave;
      var t := tasks[task];
      LeaveAttempt(task);
      futures, flights := futures[t.flight := flight], flights - {t.cred};
      if flight.Landed? {
        results := results[task := Result(t.flight, flight.outcome)];
      }
    }

    /** The `finally` blocks of `_attempt`: unlock, and leave the line. */
    method LeaveAttempt(task: nat)
      requires task in tasks && LineOk(policy, waiting, tasks)
      modifies this`holders, this`tasks, this`waiting, this`locks
      ensures View() == Leave(old(View()), task)
    {
      hide LineOk;
      LineEntry(policy, View(), task);
      var t := tasks[task];
      if HoldsLock(t.phase) {
        holders := holders - {t.lock};
      }
      if Counted(t.phase) {
        LeaveLine(t.address);
      }
      tasks := tasks - {task};
    }

    method LeaveLine(address: Key)
      requires GetOr(waiting, address, 0) > 0
      modifies this`waiting, this`locks
      ensures waiting ==
        if old(waiting)[address] > 1
        then old(waiting)[address := old(waiting)[address] - 1]
        else old(waiting) - {address}
      ensures locks == if old(waiting)[address] > 1 then old(locks) else old(locks) - {address}
    {
      waiting := waiting[address := waiting[address] - 1];
      if waiting[address] == 0 {
        waiting, locks := waiting - {address}, locks - {address};
      }
    }
  }

  lemma LineEntry(p: Policy, s: State, t: nat)
    requires LineOk(p, s.waiting, s.tasks) && t in s.tasks
    ensures Counted(s.tasks[t].phase) ==> GetOr(s.waiting, s.tasks[t].address, 0) > 0
  {
    if Counted(s.tasks[t].phase) {
      assert t in InLine(s.tasks, s.tasks[t].address);
      assert GetOr(s.waiting, s.tasks[t].address, 0) == |InLine(s.tasks, s.tasks[t].address)|;
    }
  }
}
