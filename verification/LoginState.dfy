/** The login guard of `logins.py`: one value, rewritten by each await-free section of the tasks that
    call it. Which credential matches, how long a check takes and when tasks are cancelled is left open:
    every interleaving of the steps below is a run. */
module LoginState {
  import opened Common
  import opened OrderedDict

  datatype FailureKey = AddressKey(address: Key) | AccountKey(address: Key, user: Key)

  datatype Entry = Entry(count: nat, last: real)

  type Failures = Dict<FailureKey, Entry>

  datatype Policy = Policy(base: real, max: real, grace: nat, forgetAfter: real, maxWaiting: nat, maxKeys: nat)

  /** What a verification ends with: the user, or an error of some kind. */
  datatype Outcome = Signed(user: Key) | Raised(error: nat)

  /** The future that followers of a credential wait for. */
  datatype Flight = InFlight | Dropped | Landed(outcome: Outcome)

  /** Where a task is suspended. `TurnedAway` leads a flight but was never counted as waiting;
      `Sleeping`, `Checking` and `Reporting` hold the address's lock. */
  datatype Phase =
    | Following
    | TurnedAway
    | Queued
    | TimedOut
    | Sleeping(until: real)
    | Checking
    | Reporting(error: nat)

  datatype Task = Task(address: Key, user: Key, cred: Key, flight: nat, lock: nat, phase: Phase)

  /** What a call of `verify` returned or raised, and by way of which flight. */
  datatype Result = Result(flight: nat, outcome: Outcome)

  datatype State = State(
    clock: real,
    failures: Failures,
    flights: map<Key, nat>,
    futures: map<nat, Flight>,
    locks: map<Key, nat>,
    holders: map<nat, nat>,
    waiting: map<Key, nat>,
    tasks: map<nat, Task>,
    results: map<nat, Result>,
    born: nat)

  const EMPTY := State(0.0, Dict([], map[]), map[], map[], map[], map[], map[], map[], map[], 0)

  datatype Step =
    | Arrive(address: Key, user: Key, cred: Key)
    | Land(task: nat)
    | Grab(task: nat)
    | Wake(task: nat)
    | Deny(task: nat, error: nat)
    | Approve(task: nat, signed: Key)
    | Break(task: nat, error: nat)
    | Report(task: nat)
    | TimeOut(task: nat)
    | Refuse(task: nat, error: nat)
    | Cancel(task: nat)
    | Tick(elapsed: real)

  // ---- The failure table -------------------------------------------------------------------

  function MinReal(a: real, b: real): real {
    if a <= b then a else b
  }

  /** `base * 2 ** n` */
  function Doubled(base: real, n: nat): real {
    if n == 0 then base else 2.0 * Doubled(base, n - 1)
  }

  /** The delay after `exponent` failures: doubling, up to the ceiling. */
  function Wait(p: Policy, exponent: nat): real
    requires exponent >= 1
  {
    MinReal(p.max, Doubled(p.base, if exponent - 1 <= 16 then exponent - 1 else 16))
  }

  predicate Expired(p: Policy, e: Entry, now: real) {
    now - e.last > p.forgetAfter
  }

  function Count(p: Policy, f: Failures, k: FailureKey, now: real): nat {
    if k in f.entries && !Expired(p, f.entries[k], now) then f.entries[k].count else 0
  }

  /** Looking a count up deletes an expired entry. */
  function Purge(p: Policy, f: Failures, k: FailureKey, now: real): Failures {
    if k in f.entries && Expired(p, f.entries[k], now) then Remove(f, k) else f
  }

  function Delay(p: Policy, f: Failures, address: Key, user: Key, now: real): real {
    var own := Count(p, f, AccountKey(address, user), now);
    var shared := Count(p, f, AddressKey(address), now) - p.grace;
    var exponent := if own >= shared then own else shared;
    if exponent <= 0 then 0.0 else Wait(p, exponent)
  }

  function AfterDelay(p: Policy, f: Failures, address: Key, user: Key, now: real): Failures {
    Purge(p, Purge(p, f, AccountKey(address, user), now), AddressKey(address), now)
  }

  function Bump(p: Policy, f: Failures, k: FailureKey, now: real): Failures {
    Put(f, k, Entry(Count(p, f, k, now) + 1, now))
  }

  function Record(p: Policy, f: Failures, address: Key, user: Key, now: real): Failures {
    Trim(Bump(p, Bump(p, f, AddressKey(address), now), AccountKey(address, user), now), p.maxKeys)
  }

  // ---- Attempts ----------------------------------------------------------------------------

  predicate Leads(phase: Phase) {
    phase != Following
  }

  predicate Counted(phase: Phase) {
    phase != Following && phase != TurnedAway
  }

  predicate HoldsLock(phase: Phase) {
    phase.Sleeping? || phase.Checking? || phase.Reporting?
  }

  /** `_lead` up to its first await: register the flight, then join the address's line or be turned away. */
  function Lead(p: Policy, s: State, t: nat, address: Key, user: Key, cred: Key): State {
    var flight := s.born;
    if GetOr(s.waiting, address, 0) >= p.maxWaiting then
      s.(flights := s.flights[cred := flight], futures := s.futures[flight := InFlight], born := s.born + 2,
         tasks := s.tasks[t := Task(address, user, cred, flight, 0, TurnedAway)])
    else
      var lock := GetOr(s.locks, address, s.born + 1);
      s.(flights := s.flights[cred := flight], futures := s.futures[flight := InFlight], born := s.born + 2,
         waiting := s.waiting[address := GetOr(s.waiting, address, 0) + 1],
         locks := s.locks[address := lock],
         tasks := s.tasks[t := Task(address, user, cred, flight, lock, Queued)])
  }

  function Verify(p: Policy, s: State, t: nat, address: Key, user: Key, cred: Key): State {
    if cred in s.flights then
      s.(tasks := s.tasks[t := Task(address, user, cred, s.flights[cred], 0, Following)])
    else Lead(p, s, t, address, user, cred)
  }

  /** The two `finally` blocks of `_attempt`: let go of the lock, and of the line when it empties. */
  function Leave(s: State, t: nat): State
    requires t in s.tasks
  {
    var task := s.tasks[t];
    var a := task.address;
    var last := Counted(task.phase) && GetOr(s.waiting, a, 0) <= 1;
    s.(tasks := s.tasks - {t},
       holders := if HoldsLock(task.phase) then s.holders - {task.lock} else s.holders,
       waiting :=
         if !Counted(task.phase) then s.waiting
         else if last then s.waiting - {a}
         else s.waiting[a := s.waiting[a] - 1],
       locks := if last then s.locks - {a} else s.locks)
  }

  /** The attempt is over: the flight's future is settled and unregistered in the same section. */
  function Settle(s: State, t: nat, flight: Flight): State
    requires t in s.tasks
  {
    var (task, left) := (s.tasks[t], Leave(s, t));
    left.(
      futures := left.futures[task.flight := flight],
      flights := left.flights - {task.cred},
      results := if flight.Landed? then left.results[t := Result(task.flight, flight.outcome)] else left.results)
  }

  function SetPhase(s: State, t: nat, phase: Phase): State
    requires t in s.tasks
  {
    s.(tasks := s.tasks[t := s.tasks[t].(phase := phase)])
  }

  /** The lock is free and `t` gets it; how long it must sleep is decided here and now. */
  function GrabStep(p: Policy, s: State, t: nat): State
    requires t in s.tasks
  {
    var task := s.tasks[t];
    var delay := Delay(p, s.failures, task.address, task.user, s.clock);
    var phase := if delay != 0.0 then Sleeping(s.clock + delay) else Checking;
    s.(tasks := s.tasks[t := task.(phase := phase)],
       holders := s.holders[task.lock := t],
       failures := AfterDelay(p, s.failures, task.address, task.user, s.clock))
  }

  function DenyStep(p: Policy, s: State, t: nat, error: nat): State
    requires t in s.tasks
  {
    s.(tasks := s.tasks[t := s.tasks[t].(phase := Reporting(error))],
       failures := Record(p, s.failures, s.tasks[t].address, s.tasks[t].user, s.clock))
  }

  function ApproveStep(s: State, t: nat, signed: Key): State
    requires t in s.tasks
  {
    Settle(s.(failures := Remove(s.failures, AccountKey(s.tasks[t].address, s.tasks[t].user))), t,
      Landed(Signed(signed)))
  }

  function RefuseStep(p: Policy, s: State, t: nat, error: nat): State
    requires t in s.tasks
  {
    var task := s.tasks[t];
    Settle(s.(failures := AfterDelay(p, s.failures, task.address, task.user, s.clock)), t, Landed(Raised(error)))
  }

  /** A follower resumes: it shares the outcome, or verifies again when its leader went away. */
  function LandStep(p: Policy, s: State, t: nat): State
    requires t in s.tasks && s.tasks[t].flight in s.futures
  {
    var task := s.tasks[t];
    match s.futures[task.flight]
    case InFlight => s
    case Dropped => Verify(p, s.(tasks := s.tasks - {t}), t, task.address, task.user, task.cred)
    case Landed(outcome) =>
      s.(tasks := s.tasks - {t}, results := s.results[t := Result(task.flight, outcome)])
  }

  function CancelStep(s: State, t: nat): State
    requires t in s.tasks
  {
    if Leads(s.tasks[t].phase) then Settle(s, t, Dropped) else s.(tasks := s.tasks - {t})
  }

  predicate In(s: State, t: nat, phase: Phase) {
    t in s.tasks && s.tasks[t].phase == phase
  }

  /** Whether a step can happen at all. */
  predicate Enabled(s: State, step: Step) {
    match step
    case Arrive(_, _, _) => true
    case Land(t) => In(s, t, Following) && s.tasks[t].flight in s.futures
    case Grab(t) => In(s, t, Queued) && s.tasks[t].lock !in s.holders
    case Wake(t) => t in s.tasks && s.tasks[t].phase.Sleeping? && s.clock >= s.tasks[t].phase.until
    case Deny(t, _) => In(s, t, Checking)
    case Approve(t, _) => In(s, t, Checking)
    case Break(t, _) => In(s, t, Checking)
    case Report(t) => t in s.tasks && s.tasks[t].phase.Reporting?
    case TimeOut(t) => In(s, t, Queued)
    case Refuse(t, _) => In(s, t, TurnedAway) || In(s, t, TimedOut)
    case Cancel(t) => t in s.tasks
    case Tick(elapsed) => elapsed >= 0.0
  }

  function Next(p: Policy, s: State, step: Step): State {
    if !Enabled(s, step) then s
    else match step
      case Arrive(address, user, cred) => Verify(p, s.(born := s.born + 1), s.born, address, user, cred)
      case Land(t) => LandStep(p, s, t)
      case Grab(t) => GrabStep(p, s, t)
      case Wake(t) => SetPhase(s, t, Checking)
      case Deny(t, error) => DenyStep(p, s, t, error)
      case Approve(t, signed) => ApproveStep(s, t, signed)
      case Break(t, error) => Settle(s, t, Landed(Raised(error)))
      case Report(t) => Settle(s, t, Landed(Raised(s.tasks[t].phase.error)))
      case TimeOut(t) => SetPhase(s, t, TimedOut)
      case Refuse(t, error) => RefuseStep(p, s, t, error)
      case Cancel(t) => CancelStep(s, t)
      case Tick(elapsed) => s.(clock := s.clock + elapsed)
  }

  function Run(p: Policy, s: State, steps: seq<Step>): State
    decreases |steps|
  {
    if steps == [] then s else Run(p, Next(p, s, steps[0]), steps[1..])
  }
}
