/** How fast one address can try passwords, for one account or for all of them together, and how long an attempt
    can be kept waiting, over whole runs of the login guard. */
module LoginPace {
  import opened Common
  import opened OrderedDict
  import opened LoginState
  import opened LoginSafety

  /** The task's failure would count under the key: its own address's, or its own account's from there. */
  predicate Concerns(s: State, t: nat, k: FailureKey) {
    && t in s.tasks
    && match k
       case AddressKey(a) => s.tasks[t].address == a
       case AccountKey(a, u) => s.tasks[t].address == a && s.tasks[t].user == u
  }

  predicate IsFailure(s: State, step: Step, k: FailureKey) {
    step.Deny? && Enabled(s, step) && Concerns(s, step.task, k)
  }

  /** When the checks of a run reject a password that counts under the key. */
  function FailTimes(p: Policy, s: State, steps: seq<Step>, k: FailureKey): seq<real>
    decreases |steps|
  {
    if steps == [] then []
    else
      var now := if IsFailure(s, steps[0], k) then [s.clock] else [];
      now + FailTimes(p, Next(p, s, steps[0]), steps[1..], k)
  }

  /** The live entry of the key is never evicted and, for an account's key, nobody signs in to it from there. */
  ghost predicate Undisturbed(p: Policy, s: State, steps: seq<Step>, k: FailureKey)
    decreases |steps|
  {
    steps != [] ==>
      && Calm(p, s, steps[0], k)
      && Undisturbed(p, Next(p, s, steps[0]), steps[1..], k)
  }

  ghost predicate Calm(p: Policy, s: State, step: Step, k: FailureKey) {
    && !(k.AccountKey? && step.Approve? && Enabled(s, step) && Concerns(s, step.task, k))
    && ((k in s.failures.entries && !Expired(p, s.failures.entries[k], s.clock)) || IsFailure(s, step, k) ==>
      k in Next(p, s, step).failures.entries)
  }

  /** No two successive failures are further apart than the guard's memory. */
  ghost predicate Frequent(p: Policy, times: seq<real>) {
    forall i :: 0 < i < |times| ==> times[i] - times[i - 1] <= p.forgetAfter
  }

  function TwoTo(n: nat): real {
    if n == 0 then 1.0 else 2.0 * TwoTo(n - 1)
  }

  function Scaled(p: Policy, n: nat): real {
    p.base * TwoTo(n)
  }

  /** What `n` failures cost the next attempt: nothing for none, then a delay that doubles each time, sixteen times at
      most, and never exceeds the maximum. */
  function Penalty(p: Policy, n: int): real {
    if n <= 0 then 0.0
    else
      var raised := Scaled(p, if n - 1 < 16 then n - 1 else 16);
      if raised < p.max then raised else p.max
  }

  /** The same for `n` failures under a key: an address is granted some for nothing. */
  function Charge(p: Policy, k: FailureKey, n: nat): real {
    Penalty(p, if k.AddressKey? then n - p.grace else n)
  }

  /** The delays owed between failure number `first` under the key and the `n`-th one after it. */
  function Owed(p: Policy, k: FailureKey, first: nat, n: nat): real
    decreases n
  {
    if n == 0 then 0.0 else Charge(p, k, first) + Owed(p, k, first + 1, n - 1)
  }

  ghost predicate Sensible(p: Policy) {
    p.base >= 0.0 && p.max >= 0.0
  }

  // ---- The delay, exactly ------------------------------------------------------------------

  lemma {:induction false} TwoToGrows(m: nat, n: nat)
    requires m <= n
    ensures 0.0 < TwoTo(m) <= TwoTo(n)
    decreases n
  {
    if m < n {
      TwoToGrows(m, n - 1);
    } else if m > 0 {
      TwoToGrows(m - 1, n - 1);
    }
  }

  lemma {:induction false} DoubledIs(base: real, n: nat)
    ensures Doubled(base, n) == base * TwoTo(n)
  {
    if n > 0 {
      DoubledIs(base, n - 1);
    }
  }

  lemma ScaledGrows(p: Policy, m: nat, n: nat)
    requires Sensible(p) && m <= n
    ensures 0.0 <= Scaled(p, m) <= Scaled(p, n)
  {
    TwoToGrows(m, n);
    var (a, b) := (TwoTo(m), TwoTo(n));
    hide TwoTo;
    assert p.base * a <= p.base * b;
  }

  lemma PenaltyGrows(p: Policy, m: int, n: int)
    requires Sensible(p) && m <= n
    ensures 0.0 <= Penalty(p, m) <= Penalty(p, n)
  {
    if n > 0 {
      var upper := if n - 1 < 16 then n - 1 else 16;
      var lower := if m <= 0 then 0 else if m - 1 < 16 then m - 1 else 16;
      ScaledGrows(p, lower, upper);
      hide Scaled;
    }
  }

  lemma DelayIsPenalty(p: Policy, f: Failures, address: Key, user: Key, now: real)
    ensures var (own, shared) :=
        (Live(p, f, AccountKey(address, user), now), Live(p, f, AddressKey(address), now) - p.grace);
      Delay(p, f, address, user, now) == Penalty(p, if own >= shared then own else shared)
  {
    var (own, shared) := (Live(p, f, AccountKey(address, user), now), Live(p, f, AddressKey(address), now) - p.grace);
    var exponent := if own >= shared then own else shared;
    if exponent > 0 {
      DoubledIs(p.base, if exponent - 1 <= 16 then exponent - 1 else 16);
    }
    hide TwoTo, Doubled;
  }

  /** An attempt is delayed by exactly what its account's failures cost or what its address's do, whichever is more;
      counts whose last failure is longer ago than the guard's memory are nothing. */
  lemma DelayIsLarger(p: Policy, f: Failures, address: Key, user: Key, now: real)
    requires Sensible(p)
    ensures var (own, shared) := (Live(p, f, AccountKey(address, user), now), Live(p, f, AddressKey(address), now));
      var forAccount := Charge(p, AccountKey(address, user), own);
      var forAddress := Charge(p, AddressKey(address), shared);
      Delay(p, f, address, user, now) == if forAccount >= forAddress then forAccount else forAddress
  {
    var (own, shared) := (Live(p, f, AccountKey(address, user), now), Live(p, f, AddressKey(address), now) - p.grace);
    var exponent := if own >= shared then own else shared;
    DelayIsPenalty(p, f, address, user, now);
    PenaltyGrows(p, own, exponent);
    PenaltyGrows(p, shared, exponent);
    hide Penalty, Delay, Live;
  }

  /** A count that the guard still remembers. */
  function Live(p: Policy, f: Failures, k: FailureKey, now: real): nat {
    if k in f.entries && now <= f.entries[k].last + p.forgetAfter then f.entries[k].count else 0
  }

  // ---- The pace of one key -----------------------------------------------------------------

  ghost predicate PacedTask(p: Policy, clock: real, task: Task, k: FailureKey, c: nat, last: real) {
    match task.phase
    case Sleeping(until) => until >= last + Charge(p, k, c) || until - last > p.forgetAfter
    case Checking => clock >= last + Charge(p, k, c) || clock - last > p.forgetAfter
    case _ => true
  }

  ghost predicate Entered(p: Policy, s: State, k: FailureKey, c: nat, last: real) {
    s.clock - last <= p.forgetAfter ==>
      k in s.failures.entries && s.failures.entries[k].last == last && s.failures.entries[k].count >= c
  }

  /** After the `c`-th failure in a row under the key, at time `last`, no attempt it concerns is early. */
  ghost predicate Paced(p: Policy, s: State, k: FailureKey, c: nat, last: real) {
    && c >= 1 && last <= s.clock
    && Entered(p, s, k, c, last)
    && forall t :: Concerns(s, t, k) ==> PacedTask(p, s.clock, s.tasks[t], k, c, last)
  }

  /** What a step leaves of the key's entry, unless it is a failure under it or its account's success. */
  lemma EntryKept(p: Policy, s: State, step: Step, k: FailureKey)
    requires Enabled(s, step) && Calm(p, s, step, k) && !IsFailure(s, step, k)
    ensures var (f, g) := (s.failures, Next(p, s, step).failures);
      k in f.entries && !Expired(p, f.entries[k], s.clock) ==> k in g.entries && g.entries[k] == f.entries[k]
  {
    match step
    case Grab(t) => DelayKeeps(p, s, t, k);
    case Refuse(t, _) => DelayKeeps(p, s, t, k);
    case Deny(t, _) =>
      var task := s.tasks[t];
      var bumped := Bump(p, s.failures, AddressKey(task.address), s.clock);
      TrimKeeps(Bump(p, bumped, AccountKey(task.address, task.user), s.clock), p.maxKeys, k);
    case _ =>
  }

  lemma DelayKeeps(p: Policy, s: State, t: nat, k: FailureKey)
    requires t in s.tasks
    ensures var g := AfterDelay(p, s.failures, s.tasks[t].address, s.tasks[t].user, s.clock);
      k in s.failures.entries && !Expired(p, s.failures.entries[k], s.clock) ==>
        k in g.entries && g.entries[k] == s.failures.entries[k]
  {
  }

  /** Whoever gets the lock now sleeps at least what the failures under the key ask for. */
  lemma GrabWaits(p: Policy, s: State, t: nat, k: FailureKey, c: nat, last: real)
    requires Sensible(p) && Paced(p, s, k, c, last) && Concerns(s, t, k)
    ensures PacedTask(p, s.clock, GrabStep(p, s, t).tasks[t], k, c, last)
  {
    var (a, u) := (s.tasks[t].address, s.tasks[t].user);
    DelayIsLarger(p, s.failures, a, u, s.clock);
    PenaltyGrows(p, 0, Live(p, s.failures, AccountKey(a, u), s.clock));
    if s.clock - last <= p.forgetAfter {
      var count := Live(p, s.failures, k, s.clock);
      PenaltyGrows(p, c, count);
      PenaltyGrows(p, c - p.grace, count - p.grace);
    }
    hide Penalty, Delay;
  }

  /** Only `Grab` and `Wake` bring a task to sleep or to its check, and no step turns the clock back. */
  lemma OtherPhases(p: Policy, s: State, step: Step, t: nat)
    requires Enabled(s, step)
    ensures var n := Next(p, s, step);
      && n.clock >= s.clock
      && (t in n.tasks && !step.Grab? && !step.Wake? ==>
        (t in s.tasks && n.tasks[t] == s.tasks[t]) || (!n.tasks[t].phase.Sleeping? && !n.tasks[t].phase.Checking?))
  {
    hide Lead, LandStep, Settle, GrabStep, DenyStep, ApproveStep, RefuseStep;
    match step
    case Land(v) => LandTasks(p, s, v, t);
    case Arrive(address, user, cred) => LeadPhase(p, s.(born := s.born + 1), s.born, address, user, cred, t);
    case Grab(v) => GrabClock(p, s, v);
    case Wake(v) =>
    case Deny(v, error) => DenyTasks(p, s, v, error, t);
    case Approve(v, signed) => ApproveTasks(s, v, signed, t);
    case Break(v, error) => SettleTasks(s, v, Landed(Raised(error)), t);
    case Report(v) => SettleTasks(s, v, Landed(Raised(s.tasks[v].phase.error)), t);
    case TimeOut(v) =>
    case Refuse(v, error) => RefuseTasks(p, s, v, error, t);
    case Cancel(v) => SettleTasks(s, v, Dropped, t);
    case Tick(_) =>
  }

  lemma LandTasks(p: Policy, s: State, v: nat, t: nat)
    requires v in s.tasks && s.tasks[v].flight in s.futures
    ensures var n := LandStep(p, s, v);
      && n.clock == s.clock
      && (t in n.tasks ==>
        (t in s.tasks && n.tasks[t] == s.tasks[t]) || (!n.tasks[t].phase.Sleeping? && !n.tasks[t].phase.Checking?))
  {
    if s.futures[s.tasks[v].flight] == Dropped {
      hide Lead;
      var gone := s.(tasks := s.tasks - {v});
      var task := s.tasks[v];
      LeadPhase(p, gone, v, task.address, task.user, task.cred, t);
      assert LandStep(p, s, v) == Verify(p, gone, v, task.address, task.user, task.cred);
    }
  }

  lemma GrabClock(p: Policy, s: State, v: nat)
    requires v in s.tasks
    ensures GrabStep(p, s, v).clock == s.clock
  {
  }

  lemma DenyTasks(p: Policy, s: State, v: nat, error: nat, t: nat)
    requires v in s.tasks
    ensures var n := DenyStep(p, s, v, error);
      && n.clock == s.clock
      && (t in n.tasks ==>
        && t in s.tasks
        && if t == v then n.tasks[t].phase == Reporting(error) else n.tasks[t] == s.tasks[t])
  {
  }

  lemma SettleTasks(s: State, v: nat, flight: Flight, t: nat)
    requires v in s.tasks
    ensures var n := Settle(s, v, flight);
      n.clock == s.clock && (t in n.tasks ==> t in s.tasks && n.tasks[t] == s.tasks[t])
  {
  }

  lemma ApproveTasks(s: State, v: nat, signed: Key, t: nat)
    requires v in s.tasks
    ensures var n := ApproveStep(s, v, signed);
      n.clock == s.clock && (t in n.tasks ==> t in s.tasks && n.tasks[t] == s.tasks[t])
  {
  }

  lemma RefuseTasks(p: Policy, s: State, v: nat, error: nat, t: nat)
    requires v in s.tasks
    ensures var n := RefuseStep(p, s, v, error);
      n.clock == s.clock && (t in n.tasks ==> t in s.tasks && n.tasks[t] == s.tasks[t])
  {
  }

  lemma LeadPhase(p: Policy, s: State, v: nat, address: Key, user: Key, cred: Key, t: nat)
    ensures var led := Lead(p, s, v, address, user, cred);
      && led.clock == s.clock
      && (t in led.tasks ==>
        if t == v then led.tasks[t].phase == TurnedAway || led.tasks[t].phase == Queued
        else t in s.tasks && led.tasks[t] == s.tasks[t])
  {
  }

  lemma TasksStayPaced(p: Policy, s: State, step: Step, k: FailureKey, c: nat, last: real, t: nat)
    requires Sensible(p) && Paced(p, s, k, c, last) && Enabled(s, step) && !IsFailure(s, step, k)
    requires Concerns(Next(p, s, step), t, k)
    ensures PacedTask(p, Next(p, s, step).clock, Next(p, s, step).tasks[t], k, c, last)
  {
    assert Concerns(s, t, k) ==> PacedTask(p, s.clock, s.tasks[t], k, c, last);
    if step.Grab? {
      if step.task == t { GrabWaits(p, s, t, k, c, last); }
    } else if !step.Wake? {
      hide Next;
      OtherPhases(p, s, step, t);
    }
  }

  lemma StaysPaced(p: Policy, s: State, step: Step, k: FailureKey, c: nat, last: real)
    requires Sensible(p) && Paced(p, s, k, c, last) && Calm(p, s, step, k) && !IsFailure(s, step, k)
    ensures Paced(p, Next(p, s, step), k, c, last)
  {
    if Enabled(s, step) {
      hide Next, PacedTask;
      var n := Next(p, s, step);
      OtherPhases(p, s, step, 0);
      EntryKept(p, s, step, k);
      forall t | Concerns(n, t, k) ensures PacedTask(p, n.clock, n.tasks[t], k, c, last) {
        TasksStayPaced(p, s, step, k, c, last, t);
      }
    }
  }

  /** A failure starts the next delay from scratch: nobody else is past the lock at that moment. */
  lemma FailurePaces(p: Policy, s: State, step: Step, k: FailureKey, c: nat)
    requires Inv(p, s) && IsFailure(s, step, k) && Calm(p, s, step, k)
    requires c == 0 || Count(p, s.failures, k, s.clock) >= c
    ensures Paced(p, Next(p, s, step), k, c + 1, s.clock)
  {
    var (n, v) := (Next(p, s, step), step.task);
    var (address, account) := (AddressKey(s.tasks[v].address), AccountKey(s.tasks[v].address, s.tasks[v].user));
    var bumped := Bump(p, s.failures, address, s.clock);
    TrimKeeps(Bump(p, bumped, account, s.clock), p.maxKeys, k);
    assert Count(p, bumped, account, s.clock) == Count(p, s.failures, account, s.clock);
    forall t | Concerns(n, t, k) ensures PacedTask(p, n.clock, n.tasks[t], k, c + 1, s.clock) {
      if t != v {
        assert n.tasks[t] == s.tasks[t];
        OnlyHolder(p, s, v, t);
      }
    }
  }

  lemma OnlyHolder(p: Policy, s: State, v: nat, t: nat)
    requires Inv(p, s) && t in s.tasks && v in s.tasks && t != v
    requires s.tasks[t].address == s.tasks[v].address && HoldsLock(s.tasks[v].phase)
    ensures !HoldsLock(s.tasks[t].phase)
  {
    assert Held(s.tasks, v, s.tasks[v].lock);
    assert HoldsLock(s.tasks[t].phase) ==> Held(s.tasks, t, s.tasks[t].lock);
  }

  lemma FailureIsLate(p: Policy, s: State, step: Step, k: FailureKey, c: nat, last: real)
    requires Paced(p, s, k, c, last) && IsFailure(s, step, k) && s.clock - last <= p.forgetAfter
    ensures s.clock >= last + Charge(p, k, c) && Count(p, s.failures, k, s.clock) >= c
  {
  }

  // ---- The bound ---------------------------------------------------------------------------

  lemma FrequentTail(p: Policy, first: real, times: seq<real>)
    requires Frequent(p, [first] + times)
    ensures Frequent(p, times) && (times != [] ==> times[0] - first <= p.forgetAfter)
  {
    var all := [first] + times;
    forall i | 0 < i < |times| ensures times[i] - times[i - 1] <= p.forgetAfter {
      assert all[i + 1] - all[i] <= p.forgetAfter;
    }
    assert times != [] ==> all[1] - all[0] <= p.forgetAfter;
  }

  lemma {:induction false} LaterFailures(p: Policy, s: State, steps: seq<Step>, k: FailureKey, c: nat, last: real)
    requires c >= 1 && Sensible(p) && Inv(p, s) && Paced(p, s, k, c, last) && Undisturbed(p, s, steps, k)
    requires Frequent(p, [last] + FailTimes(p, s, steps, k))
    ensures var times := FailTimes(p, s, steps, k);
      times != [] ==> times[|times| - 1] >= last + Owed(p, k, c, |times|)
    decreases |steps|
  {
    hide Inv, Paced, Calm, Next, Frequent, Charge;
    if steps != [] {
      var (step, n, rest) := (steps[0], Next(p, s, steps[0]), steps[1..]);
      var times := FailTimes(p, s, steps, k);
      var later := FailTimes(p, n, rest, k);
      NextSafe(p, s, step);
      FrequentTail(p, last, times);
      if IsFailure(s, step, k) {
        assert times == [s.clock] + later;
        FailureIsLate(p, s, step, k, c, last);
        FailurePaces(p, s, step, k, c);
        LaterFailures(p, n, rest, k, c + 1, s.clock);
        assert later == [] ==> Owed(p, k, c, 1) == Charge(p, k, c) + Owed(p, k, c + 1, 0);
      } else {
        assert times == later;
        StaysPaced(p, s, step, k, c, last);
        LaterFailures(p, n, rest, k, c, last);
      }
    }
  }

  /** From any state a run can reach, failures in a row under one key span at least the delays owed after the first,
      the second, and so on. */
  lemma {:induction false} FailureRate(p: Policy, s: State, steps: seq<Step>, k: FailureKey)
    requires Sensible(p) && Inv(p, s) && Undisturbed(p, s, steps, k)
    requires Frequent(p, FailTimes(p, s, steps, k))
    ensures var times := FailTimes(p, s, steps, k);
      times != [] ==> times[|times| - 1] - times[0] >= Owed(p, k, 1, |times| - 1)
    decreases |steps|
  {
    hide Inv, Paced, Calm, Next, Frequent, Charge;
    if steps != [] {
      var (step, n, rest) := (steps[0], Next(p, s, steps[0]), steps[1..]);
      var later := FailTimes(p, n, rest, k);
      NextSafe(p, s, step);
      if IsFailure(s, step, k) {
        assert FailTimes(p, s, steps, k) == [s.clock] + later;
        FailurePaces(p, s, step, k, 0);
        LaterFailures(p, n, rest, k, 1, s.clock);
      } else {
        assert FailTimes(p, s, steps, k) == later;
        FailureRate(p, n, rest, k);
      }
    }
  }

  /** The sum of the penalties for `first`, `first + 1` and so on, `n` of them. */
  function Penalties(p: Policy, first: int, n: nat): real
    decreases n
  {
    if n == 0 then 0.0 else Penalty(p, first) + Penalties(p, first + 1, n - 1)
  }

  lemma {:induction false} OwedIs(p: Policy, k: FailureKey, first: nat, n: nat)
    ensures Owed(p, k, first, n) == Penalties(p, if k.AddressKey? then first - p.grace else first, n)
    decreases n
  {
    hide Penalty;
    if n > 0 {
      OwedIs(p, k, first + 1, n - 1);
    }
  }

  /** The guess rate for one account from one address, while nobody signs in to it from there. */
  lemma GuessRate(p: Policy, s: State, steps: seq<Step>, a: Key, u: Key)
    requires Sensible(p) && Inv(p, s) && Undisturbed(p, s, steps, AccountKey(a, u))
    requires Frequent(p, FailTimes(p, s, steps, AccountKey(a, u)))
    ensures var times := FailTimes(p, s, steps, AccountKey(a, u));
      times != [] ==> times[|times| - 1] - times[0] >= Penalties(p, 1, |times| - 1)
  {
    FailureRate(p, s, steps, AccountKey(a, u));
    var n := |FailTimes(p, s, steps, AccountKey(a, u))|;
    if n > 0 {
      OwedIs(p, AccountKey(a, u), 1, n - 1);
    }
    hide Penalty, Penalties, Undisturbed, Frequent, Inv;
  }

  /** The guess rate of one address for all accounts together, whoever signs in to whichever: `grace` failures are for
      nothing, and from then on each costs the next attempt its delay. */
  lemma AddressRate(p: Policy, s: State, steps: seq<Step>, a: Key)
    requires Sensible(p) && Inv(p, s) && Undisturbed(p, s, steps, AddressKey(a))
    requires Frequent(p, FailTimes(p, s, steps, AddressKey(a)))
    ensures var times := FailTimes(p, s, steps, AddressKey(a));
      times != [] ==> times[|times| - 1] - times[0] >= Penalties(p, 1 - p.grace, |times| - 1)
  {
    FailureRate(p, s, steps, AddressKey(a));
    var n := |FailTimes(p, s, steps, AddressKey(a))|;
    if n > 0 {
      OwedIs(p, AddressKey(a), 1, n - 1);
    }
    hide Penalty, Penalties, Undisturbed, Frequent, Inv;
  }

  /** With the default delays, everything from the sixth guess on costs the full thirty seconds. */
  lemma {:induction false} DefaultPace(p: Policy, n: nat)
    requires p.base == 1.0 && p.max == 30.0 && n >= 5
    ensures Penalties(p, 1, n) == 31.0 + 30.0 * (n - 5) as real
  {
    assert TwoTo(2) == 4.0 && TwoTo(4) == 16.0;
    assert Penalties(p, 1, n) == Penalty(p, 1) + Penalty(p, 2) + Penalties(p, 3, n - 2);
    assert Penalties(p, 3, n - 2) == Penalty(p, 3) + Penalty(p, 4) + Penalties(p, 5, n - 4);
    assert Penalties(p, 5, n - 4) == Penalty(p, 5) + Penalties(p, 6, n - 5);
    CeilingPace(p, 6, n - 5);
  }

  lemma {:induction false} CeilingPace(p: Policy, first: nat, n: nat)
    requires p.base == 1.0 && p.max == 30.0 && first >= 6
    ensures Penalties(p, first, n) == 30.0 * n as real
    decreases n
  {
    if n > 0 {
      assert TwoTo(5) == 32.0 by { assert TwoTo(3) == 8.0; }
      TwoToGrows(5, if first - 1 < 16 then first - 1 else 16);
      CeilingPace(p, first + 1, n - 1);
    }
  }

  /** Likewise for an address: with the default grace of ten, the first ten failures delay nobody. */
  lemma {:induction false} NothingInGrace(p: Policy, first: int, n: nat)
    requires first + n <= 1
    ensures Penalties(p, first, n) == 0.0
    decreases n
  {
    if n > 0 {
      NothingInGrace(p, first + 1, n - 1);
    }
  }

  // ---- Nobody is delayed for nothing -------------------------------------------------------

  /** The failures of a run under the key since its account's last success, on top of `n` before it. */
  function Tally(p: Policy, s: State, steps: seq<Step>, k: FailureKey, n: nat): nat
    decreases |steps|
  {
    if steps == [] then n
    else
      var step := steps[0];
      var now :=
        if IsFailure(s, step, k) then n + 1
        else if k.AccountKey? && step.Approve? && Enabled(s, step) && Concerns(s, step.task, k) then 0
        else n;
      Tally(p, Next(p, s, step), steps[1..], k, now)
  }

  ghost predicate AtMost(f: Failures, k: FailureKey, n: nat) {
    k in f.entries ==> f.entries[k].count <= n
  }

  lemma VerifyCounts(p: Policy, s: State, t: nat, address: Key, user: Key, cred: Key)
    ensures Verify(p, s, t, address, user, cred).failures == s.failures
  {
  }

  lemma SettleCounts(s: State, t: nat, flight: Flight)
    requires t in s.tasks
    ensures Settle(s, t, flight).failures == s.failures
    ensures forall phase :: SetPhase(s, t, phase).failures == s.failures
  {
  }

  lemma StepTallied(p: Policy, s: State, step: Step, k: FailureKey, n: nat)
    requires Enabled(s, step) && AtMost(s.failures, k, n)
    ensures AtMost(Next(p, s, step).failures, k, if IsFailure(s, step, k) then n + 1 else n)
    ensures k.AccountKey? && step.Approve? && Concerns(s, step.task, k) ==> AtMost(Next(p, s, step).failures, k, 0)
  {
    hide Verify, SetPhase, Settle;
    match step
    case Arrive(address, user, cred) => VerifyCounts(p, s.(born := s.born + 1), s.born, address, user, cred);
    case Land(t) =>
      var task := s.tasks[t];
      VerifyCounts(p, s.(tasks := s.tasks - {t}), t, task.address, task.user, task.cred);
    case Wake(t) => SettleCounts(s, t, Dropped);
    case TimeOut(t) => SettleCounts(s, t, Dropped);
    case Break(t, error) => SettleCounts(s, t, Landed(Raised(error)));
    case Report(t) => SettleCounts(s, t, Landed(Raised(s.tasks[t].phase.error)));
    case Cancel(t) => SettleCounts(s, t, Dropped);
    case Approve(t, signed) =>
      var cleared := s.(failures := Remove(s.failures, AccountKey(s.tasks[t].address, s.tasks[t].user)));
      SettleCounts(cleared, t, Landed(Signed(signed)));
    case Refuse(t, error) =>
      var purged := s.(failures := AfterDelay(p, s.failures, s.tasks[t].address, s.tasks[t].user, s.clock));
      SettleCounts(purged, t, Landed(Raised(error)));
    case Deny(t, _) =>
      var task := s.tasks[t];
      var bumped := Bump(p, s.failures, AddressKey(task.address), s.clock);
      TrimKeeps(Bump(p, bumped, AccountKey(task.address, task.user), s.clock), p.maxKeys, k);
    case _ =>
  }

  lemma {:induction false} RunTallied(p: Policy, s: State, steps: seq<Step>, k: FailureKey, n: nat)
    requires AtMost(s.failures, k, n)
    ensures AtMost(Run(p, s, steps).failures, k, Tally(p, s, steps, k, n))
    decreases |steps|
  {
    if steps != [] {
      if Enabled(s, steps[0]) {
        StepTallied(p, s, steps[0], k, n);
      }
      hide Next, AtMost, Concerns;
      var step := steps[0];
      var now :=
        if IsFailure(s, step, k) then n + 1
        else if k.AccountKey? && step.Approve? && Enabled(s, step) && Concerns(s, step.task, k) then 0
        else n;
      assert AtMost(Next(p, s, step).failures, k, now);
      RunTallied(p, Next(p, s, step), steps[1..], k, now);
    }
  }

  /** No attempt sleeps longer than what the failures of its account since the last success cost, or those of its
      address beyond the grace; with none of the one and no more than the grace of the other it does not sleep. */
  lemma DelayedNoMore(p: Policy, steps: seq<Step>, t: nat)
    requires Sensible(p) && t in Run(p, EMPTY, steps).tasks
    ensures var s := Run(p, EMPTY, steps);
      var (a, u) := (s.tasks[t].address, s.tasks[t].user);
      var (own, shared) := (Tally(p, EMPTY, steps, AccountKey(a, u), 0), Tally(p, EMPTY, steps, AddressKey(a), 0));
      var phase := GrabStep(p, s, t).tasks[t].phase;
      && (own == 0 && shared <= p.grace ==> phase == Checking)
      && (phase == Checking || (phase.Sleeping?
          && (phase.until - s.clock <= Penalty(p, own) || phase.until - s.clock <= Penalty(p, shared - p.grace))))
  {
    var s := Run(p, EMPTY, steps);
    var (a, u) := (s.tasks[t].address, s.tasks[t].user);
    hide Run, Tally;
    RunTallied(p, EMPTY, steps, AccountKey(a, u), 0);
    RunTallied(p, EMPTY, steps, AddressKey(a), 0);
    var (own, shared) := (Tally(p, EMPTY, steps, AccountKey(a, u), 0), Tally(p, EMPTY, steps, AddressKey(a), 0));
    DelayIsLarger(p, s.failures, a, u, s.clock);
    PenaltyGrows(p, Live(p, s.failures, AccountKey(a, u), s.clock), own);
    PenaltyGrows(p, Live(p, s.failures, AddressKey(a), s.clock) - p.grace, shared - p.grace);
    assert Penalty(p, 0) == 0.0 && (shared <= p.grace ==> Penalty(p, shared - p.grace) == 0.0);
    hide Delay, Penalty;
  }
}
