/** What every interleaving of logins keeps: one attempt at a time per address although locks come and
    go, a waiting count that is the number of attempts in line, and one verification per credential whose
    outcome all its followers share. */
module LoginSafety {
  import opened Common
  import opened LoginState

  ghost function InLine(tasks: map<nat, Task>, a: Key): set<nat> {
    set t | t in tasks && tasks[t].address == a && Counted(tasks[t].phase)
  }

  /** `_waiting` counts the attempts in progress, drops addresses without any, and never passes its limit. */
  ghost predicate LineOk(p: Policy, waiting: map<Key, nat>, tasks: map<nat, Task>) {
    && (forall a :: GetOr(waiting, a, 0) == |InLine(tasks, a)|)
    && (forall a :: a in waiting ==> 0 < waiting[a] <= p.maxWaiting)
  }

  /** An address has a lock object exactly while somebody is in its line, and all of them use that one. */
  ghost predicate LocksOk(locks: map<Key, nat>, waiting: map<Key, nat>, tasks: map<nat, Task>, born: nat) {
    && locks.Keys == waiting.Keys
    && (forall a :: a in locks ==> locks[a] < born)
    && (forall a, b :: a in locks && b in locks && locks[a] == locks[b] ==> a == b)
    && (forall t :: t in tasks && Counted(tasks[t].phase) ==>
      tasks[t].address in locks && tasks[t].lock == locks[tasks[t].address])
  }

  ghost predicate Held(tasks: map<nat, Task>, t: nat, lock: nat) {
    t in tasks && tasks[t].lock == lock && HoldsLock(tasks[t].phase)
  }

  /** A lock is held by the task recorded as its holder, and by no other. */
  ghost predicate HoldersOk(holders: map<nat, nat>, tasks: map<nat, Task>) {
    && (forall l :: l in holders ==> Held(tasks, holders[l], l))
    && (forall t, l :: Held(tasks, t, l) ==> l in holders && holders[l] == t)
  }

  ghost predicate LeaderOk(flights: map<Key, nat>, futures: map<nat, Flight>, task: Task) {
    && task.cred in flights && flights[task.cred] == task.flight
    && task.flight in futures && futures[task.flight] == InFlight
  }

  ghost predicate FollowerOk(flights: map<Key, nat>, futures: map<nat, Flight>, task: Task) {
    && task.flight in futures
    && (futures[task.flight] == InFlight ==> task.cred in flights && flights[task.cred] == task.flight)
  }

  ghost predicate TaskOk(flights: map<Key, nat>, futures: map<nat, Flight>, task: Task) {
    if Leads(task.phase) then LeaderOk(flights, futures, task) else FollowerOk(flights, futures, task)
  }

  ghost predicate Leader(tasks: map<nat, Task>, t: nat, cred: Key, flight: nat) {
    t in tasks && Leads(tasks[t].phase) && tasks[t].cred == cred && tasks[t].flight == flight
  }

  ghost predicate HasLeader(tasks: map<nat, Task>, cred: Key, flight: nat) {
    exists t :: Leader(tasks, t, cred, flight)
  }

  ghost predicate IsLeader(tasks: map<nat, Task>, t: nat) {
    t in tasks && Leads(tasks[t].phase)
  }

  ghost predicate FlightsOk(flights: map<Key, nat>, futures: map<nat, Flight>, tasks: map<nat, Task>) {
    && (forall t :: t in tasks ==> TaskOk(flights, futures, tasks[t]))
    && (forall c :: c in flights ==> HasLeader(tasks, c, flights[c]))
    && (forall t, u | IsLeader(tasks, t) && IsLeader(tasks, u) :: tasks[t].flight == tasks[u].flight ==> t == u)
  }

  /** Every call that ended, ended with the outcome of the flight it led or followed. */
  ghost predicate ResultsOk(results: map<nat, Result>, futures: map<nat, Flight>) {
    forall t :: t in results ==>
      results[t].flight in futures && futures[results[t].flight] == Landed(results[t].outcome)
  }

  ghost predicate Fresh(s: State) {
    && (forall t :: t in s.tasks ==> t < s.born)
    && (forall f :: f in s.futures ==> f < s.born)
  }

  ghost predicate Inv(p: Policy, s: State) {
    && LineOk(p, s.waiting, s.tasks)
    && LocksOk(s.locks, s.waiting, s.tasks, s.born)
    && HoldersOk(s.holders, s.tasks)
    && FlightsOk(s.flights, s.futures, s.tasks)
    && ResultsOk(s.results, s.futures)
    && Fresh(s)
  }

  // ---- The line and its lock ---------------------------------------------------------------

  lemma LineLoses(tasks: map<nat, Task>, t: nat, a: Key)
    requires t in tasks
    ensures |InLine(tasks - {t}, a)| ==
      |InLine(tasks, a)| - if a == tasks[t].address && Counted(tasks[t].phase) then 1 else 0
  {
    assert InLine(tasks - {t}, a) == InLine(tasks, a) - {t};
    assert t in InLine(tasks, a) <==> a == tasks[t].address && Counted(tasks[t].phase);
  }

  lemma LineGains(tasks: map<nat, Task>, t: nat, task: Task, a: Key)
    requires t !in tasks
    ensures |InLine(tasks[t := task], a)| ==
      |InLine(tasks, a)| + if a == task.address && Counted(task.phase) then 1 else 0
  {
    if a == task.address && Counted(task.phase) {
      assert InLine(tasks[t := task], a) == InLine(tasks, a) + {t};
    } else {
      assert InLine(tasks[t := task], a) == InLine(tasks, a);
    }
  }

  lemma LineKeeps(tasks: map<nat, Task>, t: nat, phase: Phase, a: Key)
    requires t in tasks && Counted(phase) == Counted(tasks[t].phase)
    ensures InLine(tasks[t := tasks[t].(phase := phase)], a) == InLine(tasks, a)
  {
  }

  lemma LeaveKeepsLine(p: Policy, s: State, t: nat)
    requires LineOk(p, s.waiting, s.tasks) && t in s.tasks
    ensures LineOk(p, Leave(s, t).waiting, Leave(s, t).tasks)
  {
    var left := Leave(s, t);
    forall a ensures GetOr(left.waiting, a, 0) == |InLine(left.tasks, a)| {
      LineLoses(s.tasks, t, a);
      assert GetOr(s.waiting, a, 0) == |InLine(s.tasks, a)|;
    }
  }

  lemma LeaveKeepsHolders(holders: map<nat, nat>, tasks: map<nat, Task>, t: nat)
    requires HoldersOk(holders, tasks) && t in tasks
    ensures HoldersOk(if HoldsLock(tasks[t].phase) then holders - {tasks[t].lock} else holders, tasks - {t})
  {
    var after := if HoldsLock(tasks[t].phase) then holders - {tasks[t].lock} else holders;
    forall l | l in after ensures Held(tasks - {t}, after[l], l) {
      assert Held(tasks, holders[l], l);
    }
    forall u, l | Held(tasks - {t}, u, l) ensures l in after && after[l] == u {
      assert Held(tasks, u, l);
      assert HoldsLock(tasks[t].phase) ==> Held(tasks, t, tasks[t].lock);
    }
  }

  lemma PhaseKeepsHolders(holders: map<nat, nat>, tasks: map<nat, Task>, t: nat, phase: Phase)
    requires HoldersOk(holders, tasks) && t in tasks
    requires HoldsLock(phase) == HoldsLock(tasks[t].phase) || (HoldsLock(phase) && tasks[t].lock !in holders)
    ensures HoldersOk(
      if HoldsLock(phase) then holders[tasks[t].lock := t] else holders, tasks[t := tasks[t].(phase := phase)])
  {
    var after := tasks[t := tasks[t].(phase := phase)];
    var holders' := if HoldsLock(phase) then holders[tasks[t].lock := t] else holders;
    assert HoldsLock(tasks[t].phase) ==> Held(tasks, t, tasks[t].lock);
    forall l | l in holders' ensures Held(after, holders'[l], l) {
      assert l in holders ==> Held(tasks, holders[l], l);
    }
    forall u, l | Held(after, u, l) ensures l in holders' && holders'[l] == u {
      assert u != t ==> Held(tasks, u, l);
    }
  }

  lemma NewcomerKeepsHolders(holders: map<nat, nat>, tasks: map<nat, Task>, t: nat, task: Task)
    requires HoldersOk(holders, tasks) && t !in tasks && !HoldsLock(task.phase)
    ensures HoldersOk(holders, tasks[t := task])
  {
    var after := tasks[t := task];
    forall l | l in holders ensures Held(after, holders[l], l) {
      assert Held(tasks, holders[l], l);
    }
    forall u, l | Held(after, u, l) ensures l in holders && holders[l] == u {
      assert Held(tasks, u, l);
    }
  }

  lemma LeaveKeepsLocks(p: Policy, s: State, t: nat)
    requires LineOk(p, s.waiting, s.tasks) && LocksOk(s.locks, s.waiting, s.tasks, s.born) && t in s.tasks
    ensures LocksOk(Leave(s, t).locks, Leave(s, t).waiting, Leave(s, t).tasks, s.born)
  {
    var (left, a) := (Leave(s, t), s.tasks[t].address);
    assert GetOr(s.waiting, a, 0) == |InLine(s.tasks, a)|;
    if Counted(s.tasks[t].phase) && GetOr(s.waiting, a, 0) <= 1 {
      LineLoses(s.tasks, t, a);
      assert InLine(left.tasks, a) == {};
      forall u | u in left.tasks && Counted(left.tasks[u].phase) ensures left.tasks[u].address != a {
        assert u !in InLine(left.tasks, a);
      }
    }
  }

  lemma JoinKeepsCount(p: Policy, waiting: map<Key, nat>, tasks: map<nat, Task>, t: nat, task: Task)
    requires LineOk(p, waiting, tasks) && t !in tasks && task.phase == Queued
    requires GetOr(waiting, task.address, 0) < p.maxWaiting
    ensures LineOk(p, waiting[task.address := GetOr(waiting, task.address, 0) + 1], tasks[t := task])
  {
    var more := waiting[task.address := GetOr(waiting, task.address, 0) + 1];
    forall b ensures GetOr(more, b, 0) == |InLine(tasks[t := task], b)| {
      LineGains(tasks, t, task, b);
      assert GetOr(waiting, b, 0) == |InLine(tasks, b)|;
    }
    hide InLine;
  }

  /** A task that joins the line shares the lock that is there, or brings a new one to an empty line. */
  lemma JoinKeepsLine(p: Policy, s: State, t: nat, task: Task, lock: nat)
    requires LineOk(p, s.waiting, s.tasks) && LocksOk(s.locks, s.waiting, s.tasks, s.born)
    requires t !in s.tasks && task.phase == Queued
    requires lock == GetOr(s.locks, task.address, s.born + 1) && task.lock == lock
    requires GetOr(s.waiting, task.address, 0) < p.maxWaiting
    ensures var (a, tasks) := (task.address, s.tasks[t := task]);
      var waiting := s.waiting[a := GetOr(s.waiting, a, 0) + 1];
      LineOk(p, waiting, tasks) && LocksOk(s.locks[a := lock], waiting, tasks, s.born + 2)
  {
    JoinKeepsCount(p, s.waiting, s.tasks, t, task);
    hide LineOk, InLine;
  }

  /** A task outside the line comes or goes. */
  lemma BystanderKeepsLine(p: Policy, s: State, t: nat, task: Task)
    requires LineOk(p, s.waiting, s.tasks) && LocksOk(s.locks, s.waiting, s.tasks, s.born)
    requires t !in s.tasks && !Counted(task.phase)
    ensures var tasks := s.tasks[t := task];
      && LineOk(p, s.waiting, tasks)
      && LocksOk(s.locks, s.waiting, tasks, s.born) && LocksOk(s.locks, s.waiting, tasks, s.born + 2)
  {
    forall b ensures GetOr(s.waiting, b, 0) == |InLine(s.tasks[t := task], b)| {
      LineGains(s.tasks, t, task, b);
    }
  }

  lemma PhaseKeepsLine(p: Policy, s: State, t: nat, phase: Phase)
    requires LineOk(p, s.waiting, s.tasks) && LocksOk(s.locks, s.waiting, s.tasks, s.born)
    requires t in s.tasks && Counted(phase) && Counted(s.tasks[t].phase)
    ensures LineOk(p, s.waiting, SetPhase(s, t, phase).tasks)
    ensures LocksOk(s.locks, s.waiting, SetPhase(s, t, phase).tasks, s.born)
  {
    forall a ensures GetOr(s.waiting, a, 0) == |InLine(SetPhase(s, t, phase).tasks, a)| {
      LineKeeps(s.tasks, t, phase, a);
      assert GetOr(s.waiting, a, 0) == |InLine(s.tasks, a)|;
    }
  }

  // ---- Flights -----------------------------------------------------------------------------

  lemma PhaseKeepsFlights(s: State, t: nat, phase: Phase)
    requires FlightsOk(s.flights, s.futures, s.tasks) && t in s.tasks && Leads(phase) && Leads(s.tasks[t].phase)
    ensures FlightsOk(s.flights, s.futures, SetPhase(s, t, phase).tasks)
  {
    var after := SetPhase(s, t, phase).tasks;
    forall c | c in s.flights ensures HasLeader(after, c, s.flights[c]) {
      var u :| Leader(s.tasks, u, c, s.flights[c]);
      assert Leader(after, u, c, s.flights[c]);
    }
  }

  lemma NewLeader(flights: map<Key, nat>, futures: map<nat, Flight>, tasks: map<nat, Task>, t: nat, task: Task)
    requires FlightsOk(flights, futures, tasks) && t !in tasks && Leads(task.phase)
    requires task.cred !in flights && task.flight !in futures
    ensures FlightsOk(flights[task.cred := task.flight], futures[task.flight := InFlight], tasks[t := task])
  {
    var (flights', futures') := (flights[task.cred := task.flight], futures[task.flight := InFlight]);
    var after := tasks[t := task];
    forall c | c in flights' ensures HasLeader(after, c, flights'[c]) {
      if c == task.cred {
        assert Leader(after, t, c, task.flight);
      } else {
        var u :| Leader(tasks, u, c, flights[c]);
        assert Leader(after, u, c, flights'[c]);
      }
    }
    forall u | u in after ensures TaskOk(flights', futures', after[u]) {
      assert u != t ==> TaskOk(flights, futures, tasks[u]);
    }
    forall u, v | IsLeader(after, u) && IsLeader(after, v) ensures after[u].flight == after[v].flight ==> u == v {
      assert u != t ==> IsLeader(tasks, u) && TaskOk(flights, futures, tasks[u]);
      assert v != t ==> IsLeader(tasks, v) && TaskOk(flights, futures, tasks[v]);
    }
  }

  lemma NewFollower(s: State, t: nat, task: Task)
    requires FlightsOk(s.flights, s.futures, s.tasks) && t !in s.tasks
    requires task.phase == Following && task.cred in s.flights && task.flight == s.flights[task.cred]
    ensures FlightsOk(s.flights, s.futures, s.tasks[t := task])
  {
    var after := s.tasks[t := task];
    forall c | c in s.flights ensures HasLeader(after, c, s.flights[c]) {
      var u :| Leader(s.tasks, u, c, s.flights[c]);
      assert Leader(after, u, c, s.flights[c]);
    }
    var leader :| Leader(s.tasks, leader, task.cred, task.flight);
    assert TaskOk(s.flights, s.futures, s.tasks[leader]);
  }

  lemma FollowerGone(s: State, t: nat)
    requires FlightsOk(s.flights, s.futures, s.tasks) && In(s, t, Following)
    ensures FlightsOk(s.flights, s.futures, s.tasks - {t})
  {
    forall c | c in s.flights ensures HasLeader(s.tasks - {t}, c, s.flights[c]) {
      var u :| Leader(s.tasks, u, c, s.flights[c]);
      assert Leader(s.tasks - {t}, u, c, s.flights[c]);
    }
  }

  /** Settling a leader's flight touches no other flight, and leaves its followers with a settled future. */
  lemma SettleKeepsFlights(s: State, t: nat, flight: Flight)
    requires FlightsOk(s.flights, s.futures, s.tasks) && t in s.tasks && Leads(s.tasks[t].phase) && flight != InFlight
    ensures var task := s.tasks[t];
      && task.flight in s.futures && s.futures[task.flight] == InFlight
      && FlightsOk(s.flights - {task.cred}, s.futures[task.flight := flight], s.tasks - {t})
  {
    assert TaskOk(s.flights, s.futures, s.tasks[t]) && IsLeader(s.tasks, t);
    var task := s.tasks[t];
    var (flights, futures, after) := (s.flights - {task.cred}, s.futures[task.flight := flight], s.tasks - {t});
    forall c | c in flights ensures HasLeader(after, c, flights[c]) {
      var u :| Leader(s.tasks, u, c, s.flights[c]);
      assert Leader(after, u, c, flights[c]);
    }
    forall u | u in after ensures TaskOk(flights, futures, after[u]) {
      assert TaskOk(s.flights, s.futures, s.tasks[u]);
      assert Leads(after[u].phase) ==> IsLeader(s.tasks, u);
    }
  }

  // ---- The steps ---------------------------------------------------------------------------

  lemma SettleKeepsResults(results: map<nat, Result>, futures: map<nat, Flight>, t: nat, f: nat, flight: Flight)
    requires ResultsOk(results, futures) && f in futures && futures[f] == InFlight
    ensures ResultsOk(results, futures[f := flight])
    ensures flight.Landed? ==> ResultsOk(results[t := Result(f, flight.outcome)], futures[f := flight])
  {
  }

  lemma LeaveFrame(s: State, t: nat)
    requires t in s.tasks
    ensures var left := Leave(s, t);
      && left.tasks == s.tasks - {t} && left.born == s.born && left.results == s.results
      && left.futures == s.futures && left.flights == s.flights
      && left.holders == if HoldsLock(s.tasks[t].phase) then s.holders - {s.tasks[t].lock} else s.holders
  {
  }

  lemma SettleSafe(p: Policy, s: State, t: nat, flight: Flight)
    requires Inv(p, s) && t in s.tasks && Leads(s.tasks[t].phase) && flight != InFlight
    ensures Inv(p, Settle(s, t, flight))
  {
    hide LineOk, LocksOk, HoldersOk, FlightsOk, ResultsOk, Leave;
    LeaveFrame(s, t);
    LeaveKeepsLine(p, s, t);
    LeaveKeepsLocks(p, s, t);
    LeaveKeepsHolders(s.holders, s.tasks, t);
    SettleKeepsFlights(s, t, flight);
    SettleKeepsResults(s.results, s.futures, t, s.tasks[t].flight, flight);
  }

  lemma FollowSafe(p: Policy, s: State, t: nat, address: Key, user: Key, cred: Key)
    requires Inv(p, s) && t !in s.tasks && t < s.born && cred in s.flights
    ensures Inv(p, Verify(p, s, t, address, user, cred))
  {
    hide LineOk, LocksOk, HoldersOk, FlightsOk, ResultsOk;
    var task := Task(address, user, cred, s.flights[cred], 0, Following);
    NewcomerKeepsHolders(s.holders, s.tasks, t, task);
    BystanderKeepsLine(p, s, t, task);
    NewFollower(s, t, task);
  }

  lemma LeadSafe(p: Policy, s: State, t: nat, address: Key, user: Key, cred: Key)
    requires Inv(p, s) && t !in s.tasks && t < s.born && cred !in s.flights
    ensures Inv(p, Lead(p, s, t, address, user, cred))
  {
    hide LineOk, LocksOk, HoldersOk, FlightsOk;
    if GetOr(s.waiting, address, 0) >= p.maxWaiting {
      var task := Task(address, user, cred, s.born, 0, TurnedAway);
      NewcomerKeepsHolders(s.holders, s.tasks, t, task);
      NewLeader(s.flights, s.futures, s.tasks, t, task);
      BystanderKeepsLine(p, s, t, task);
    } else {
      var task := Task(address, user, cred, s.born, GetOr(s.locks, address, s.born + 1), Queued);
      NewcomerKeepsHolders(s.holders, s.tasks, t, task);
      NewLeader(s.flights, s.futures, s.tasks, t, task);
      JoinKeepsLine(p, s, t, task, task.lock);
    }
  }

  lemma VerifySafe(p: Policy, s: State, t: nat, address: Key, user: Key, cred: Key)
    requires Inv(p, s) && t !in s.tasks && t < s.born
    ensures Inv(p, Verify(p, s, t, address, user, cred))
  {
    hide Inv;
    if cred in s.flights {
      FollowSafe(p, s, t, address, user, cred);
    } else {
      LeadSafe(p, s, t, address, user, cred);
    }
  }

  lemma FollowerLeaves(p: Policy, s: State, t: nat)
    requires Inv(p, s) && In(s, t, Following)
    ensures Inv(p, s.(tasks := s.tasks - {t}))
  {
    FollowerGone(s, t);
    LeaveKeepsHolders(s.holders, s.tasks, t);
    forall a ensures GetOr(s.waiting, a, 0) == |InLine(s.tasks - {t}, a)| {
      LineLoses(s.tasks, t, a);
      assert GetOr(s.waiting, a, 0) == |InLine(s.tasks, a)|;
    }
  }

  lemma PhaseSafe(p: Policy, s: State, t: nat, phase: Phase)
    requires Inv(p, s) && t in s.tasks && Counted(phase) && Counted(s.tasks[t].phase)
    requires HoldsLock(phase) == HoldsLock(s.tasks[t].phase)
    ensures Inv(p, SetPhase(s, t, phase))
  {
    hide LineOk, LocksOk, HoldersOk, FlightsOk;
    PhaseKeepsLine(p, s, t, phase);
    PhaseKeepsHolders(s.holders, s.tasks, t, phase);
    HeldLock(s, t);
    PhaseKeepsFlights(s, t, phase);
  }

  /** Writing the holder again is no change. */
  lemma HeldLock(s: State, t: nat)
    requires HoldersOk(s.holders, s.tasks) && t in s.tasks
    ensures HoldsLock(s.tasks[t].phase) ==> s.holders[s.tasks[t].lock := t] == s.holders
  {
    assert HoldsLock(s.tasks[t].phase) ==> Held(s.tasks, t, s.tasks[t].lock);
  }

  lemma GrabSafe(p: Policy, s: State, t: nat)
    requires Inv(p, s) && Enabled(s, Grab(t))
    ensures Inv(p, GrabStep(p, s, t))
  {
    hide LineOk, LocksOk, HoldersOk, FlightsOk;
    var phase := GrabStep(p, s, t).tasks[t].phase;
    PhaseKeepsLine(p, s, t, phase);
    PhaseKeepsHolders(s.holders, s.tasks, t, phase);
    PhaseKeepsFlights(s, t, phase);
  }

  lemma BornLater(p: Policy, s: State)
    requires Inv(p, s)
    ensures Inv(p, s.(born := s.born + 1)) && s.born !in s.tasks
  {
  }

  /** The failure table and the clock are not part of the invariant. */
  lemma FailuresDoNotMatter(p: Policy, s: State, failures: Failures, clock: real)
    requires Inv(p, s)
    ensures Inv(p, s.(failures := failures, clock := clock))
  {
  }

  lemma LandSafe(p: Policy, s: State, t: nat)
    requires Inv(p, s) && Enabled(s, Land(t))
    ensures Inv(p, LandStep(p, s, t))
  {
    hide LineOk, LocksOk, HoldersOk, FlightsOk;
    FollowerLeaves(p, s, t);
    if s.futures[s.tasks[t].flight] == Dropped {
      VerifySafe(p, s.(tasks := s.tasks - {t}), t, s.tasks[t].address, s.tasks[t].user, s.tasks[t].cred);
    }
  }

  /** Whatever happens next, the invariant survives it. */
  lemma NextSafe(p: Policy, s: State, step: Step)
    requires Inv(p, s)
    ensures Inv(p, Next(p, s, step))
  {
    hide Inv, Verify, LandStep, GrabStep, Record, AfterDelay;
    if Enabled(s, step) {
      match step
      case Arrive(address, user, cred) =>
        BornLater(p, s);
        VerifySafe(p, s.(born := s.born + 1), s.born, address, user, cred);
      case Land(t) => LandSafe(p, s, t);
      case Grab(t) => GrabSafe(p, s, t);
      case Wake(t) => PhaseSafe(p, s, t, Checking);
      case Deny(t, error) =>
        PhaseSafe(p, s, t, Reporting(error));
        FailuresDoNotMatter(p, SetPhase(s, t, Reporting(error)), DenyStep(p, s, t, error).failures, s.clock);
      case Approve(t, signed) =>
        FailuresDoNotMatter(p, s, ApproveStep(s, t, signed).failures, s.clock);
        SettleSafe(p, s.(failures := ApproveStep(s, t, signed).failures), t, Landed(Signed(signed)));
      case Break(t, error) => SettleSafe(p, s, t, Landed(Raised(error)));
      case Report(t) => SettleSafe(p, s, t, Landed(Raised(s.tasks[t].phase.error)));
      case TimeOut(t) => PhaseSafe(p, s, t, TimedOut);
      case Refuse(t, error) =>
        FailuresDoNotMatter(p, s, RefuseStep(p, s, t, error).failures, s.clock);
        SettleSafe(p, s.(failures := RefuseStep(p, s, t, error).failures), t, Landed(Raised(error)));
      case Cancel(t) => if Leads(s.tasks[t].phase) { SettleSafe(p, s, t, Dropped); } else { FollowerLeaves(p, s, t); }
      case Tick(elapsed) => FailuresDoNotMatter(p, s, s.failures, s.clock + elapsed);
    }
  }

  lemma {:induction false} RunSafe(p: Policy, s: State, steps: seq<Step>)
    requires Inv(p, s)
    ensures Inv(p, Run(p, s, steps))
    decreases |steps|
  {
    if steps != [] {
      NextSafe(p, s, steps[0]);
      RunSafe(p, Next(p, s, steps[0]), steps[1..]);
    }
  }

  lemma EmptySafe(p: Policy)
    ensures Inv(p, EMPTY)
  {
  }

  // ---- What the invariant promises ---------------------------------------------------------

  /** At most one attempt per address is between acquiring and releasing a lock. */
  lemma OneAtATime(p: Policy, steps: seq<Step>, t: nat, u: nat)
    requires var s := Run(p, EMPTY, steps);
      && t in s.tasks && HoldsLock(s.tasks[t].phase) && u in s.tasks && HoldsLock(s.tasks[u].phase)
      && s.tasks[t].address == s.tasks[u].address
    ensures t == u
  {
    EmptySafe(p);
    RunSafe(p, EMPTY, steps);
    var s := Run(p, EMPTY, steps);
    assert Held(s.tasks, t, s.tasks[t].lock) && Held(s.tasks, u, s.tasks[u].lock);
  }

  /** The waiting count of an address is the number of its attempts in progress, and bounded. */
  lemma LineBounded(p: Policy, steps: seq<Step>, a: Key)
    ensures var s := Run(p, EMPTY, steps);
      && GetOr(s.waiting, a, 0) == |InLine(s.tasks, a)| <= p.maxWaiting
      && (a in s.locks <==> InLine(s.tasks, a) != {})
  {
    EmptySafe(p);
    RunSafe(p, EMPTY, steps);
    var s := Run(p, EMPTY, steps);
    assert GetOr(s.waiting, a, 0) == |InLine(s.tasks, a)|;
    if InLine(s.tasks, a) != {} {
      var t :| t in InLine(s.tasks, a);
      assert |InLine(s.tasks, a)| > 0;
    }
  }

  /** A new call follows if and only if some task is already verifying its credential; otherwise it is turned away if
      and only if the address has as many attempts in line as it may; otherwise it queues. */
  lemma ArrivalExactly(p: Policy, s: State, address: Key, user: Key, cred: Key)
    requires Inv(p, s)
    ensures var n := Next(p, s, Arrive(address, user, cred));
      var taken := exists u :: u in s.tasks && Leads(s.tasks[u].phase) && s.tasks[u].cred == cred;
      && s.born in n.tasks
      && (n.tasks[s.born].phase == Following <==> taken)
      && (n.tasks[s.born].phase == TurnedAway <==> !taken && |InLine(s.tasks, address)| == p.maxWaiting)
      && (n.tasks[s.born].phase == Queued <==> !taken && |InLine(s.tasks, address)| < p.maxWaiting)
      && (taken ==> n.futures == s.futures && n.tasks[s.born].flight in s.futures)
  {
    assert GetOr(s.waiting, address, 0) == |InLine(s.tasks, address)| <= p.maxWaiting;
  }

  /** A credential is being verified by at most one task at a time. */
  lemma OneLeader(p: Policy, steps: seq<Step>, t: nat, u: nat)
    requires var s := Run(p, EMPTY, steps);
      && t in s.tasks && Leads(s.tasks[t].phase) && u in s.tasks && Leads(s.tasks[u].phase)
      && s.tasks[t].cred == s.tasks[u].cred
    ensures t == u
  {
    EmptySafe(p);
    RunSafe(p, EMPTY, steps);
    var s := Run(p, EMPTY, steps);
    assert TaskOk(s.flights, s.futures, s.tasks[t]) && TaskOk(s.flights, s.futures, s.tasks[u]);
    assert IsLeader(s.tasks, t) && IsLeader(s.tasks, u);
  }

  /** Everyone who ended by way of the same flight got the same answer. */
  lemma SharedOutcome(p: Policy, steps: seq<Step>, t: nat, u: nat)
    ensures var s := Run(p, EMPTY, steps);
      t in s.results && u in s.results && s.results[t].flight == s.results[u].flight ==>
        s.results[t].outcome == s.results[u].outcome
  {
    EmptySafe(p);
    RunSafe(p, EMPTY, steps);
  }

  lemma TaskInOrder(p: Policy, s: State, t: nat)
    requires Inv(p, s) && t in s.tasks
    ensures TaskOk(s.flights, s.futures, s.tasks[t])
    ensures s.tasks[t].cred in s.flights ==> HasLeader(s.tasks, s.tasks[t].cred, s.flights[s.tasks[t].cred])
  {
  }

  /** A follower resumed after its leader's cancellation leads or follows its credential anew. */
  lemma TakesOver(p: Policy, s: State, t: nat)
    requires Inv(p, s) && In(s, t, Following)
    requires s.tasks[t].flight in s.futures && s.futures[s.tasks[t].flight] == Dropped
    ensures var after := Next(p, s, Land(t)).tasks;
      t in after && after[t].cred == s.tasks[t].cred && HasLeader(after, s.tasks[t].cred, after[t].flight)
  {
    hide Inv, Record, AfterDelay, Delay, Leave;
    var end := Next(p, s, Land(t));
    NextSafe(p, s, Land(t));
    TaskInOrder(p, end, t);
    if Leads(end.tasks[t].phase) {
      assert Leader(end.tasks, t, s.tasks[t].cred, end.tasks[t].flight);
    }
  }

  /** A follower is never stranded: its leader is still at work on the same credential, or the follower
      can resume, and then it shares the outcome or, after its leader's cancellation, leads or follows anew. */
  lemma NeverStranded(p: Policy, steps: seq<Step>, t: nat)
    ensures var s := Run(p, EMPTY, steps);
      In(s, t, Following) ==>
        var task := s.tasks[t];
        task.flight in s.futures &&
        match s.futures[task.flight]
        case InFlight => HasLeader(s.tasks, task.cred, task.flight)
        case Landed(outcome) => Next(p, s, Land(t)).results == s.results[t := Result(task.flight, outcome)]
        case Dropped =>
          var after := Next(p, s, Land(t)).tasks;
          t in after && after[t].cred == task.cred && HasLeader(after, task.cred, after[t].flight)
  {
    EmptySafe(p);
    RunSafe(p, EMPTY, steps);
    var s := Run(p, EMPTY, steps);
    if In(s, t, Following) {
      hide Inv;
      var task := s.tasks[t];
      TaskInOrder(p, s, t);
      if s.futures[task.flight] == Dropped {
        TakesOver(p, s, t);
      }
    }
  }
}
