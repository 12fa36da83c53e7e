/** The resumable auto-match job: its rows (`database.py`), the runner's steps (`app.py`, `metadata.py`) and the
    crashes and restarts between them. One `Step` is one transaction. */
module AutoMatchState {
  import opened Common
  import OrderedDict

  datatype Status = Pending | Linked | Review | Failed

  /** How the search for a series and the save of its match end. The match is saved before the cover is fetched,
      so an error raised by the cover leaves the series linked. */
  datatype Found = Raises | Unclear | Links | LinksThenRaises {
    predicate Saves() {
      Links? || LinksThenRaises?
    }

    function Verdict(): Status {
      if Links? then Linked else if Unclear? then Review else Failed
    }
  }

  /** A job row with its item rows: `order` lists the series by position. */
  datatype Job = Job(library: Key, running: bool, total: nat, completed: nat, linked: nat, review: nat, failed: nat,
    order: seq<Key>, statuses: map<Key, Status>)

  type Jobs = map<Key, Job>

  // ---- The transactions --------------------------------------------------------------------

  /** `list(dict.fromkeys(...))`. */
  function Deduplicated(series: seq<Key>): seq<Key> {
    if series == [] then []
    else
      var (rest, last) := (Deduplicated(series[..|series| - 1]), series[|series| - 1]);
      if last in rest then rest else rest + [last]
  }

  ghost predicate AnyRunning(jobs: Jobs) {
    exists id :: id in jobs && jobs[id].running
  }

  function NewJob(library: Key, series: seq<Key>): Job {
    var order := Deduplicated(series);
    Job(library, true, |order|, 0, 0, 0, 0, order, map s | s in order :: Pending)
  }

  function PendingOf(order: seq<Key>, statuses: map<Key, Status>): seq<Key> {
    if order == [] then []
    else
      (if order[0] in statuses && statuses[order[0]] == Pending then [order[0]] else [])
      + PendingOf(order[1..], statuses)
  }

  function PendingSeries(jobs: Jobs, id: Key): seq<Key> {
    if id in jobs then PendingOf(jobs[id].order, jobs[id].statuses) else []
  }

  function OneIf(b: bool): nat {
    if b then 1 else 0
  }

  function Settle(job: Job, s: Key, outcome: Status): Job {
    job.(completed := job.completed + 1, linked := job.linked + OneIf(outcome == Linked),
      review := job.review + OneIf(outcome == Review), failed := job.failed + OneIf(outcome == Failed),
      statuses := job.statuses[s := outcome])
  }

  /** Settles an item that is still pending; anything else changes nothing. */
  function FinishItem(jobs: Jobs, id: Key, s: Key, outcome: Status): Jobs {
    if id in jobs && s in jobs[id].statuses && jobs[id].statuses[s] == Pending
      then jobs[id := Settle(jobs[id], s, outcome)]
      else jobs
  }

  function CompleteJob(jobs: Jobs, id: Key): Jobs {
    if id in jobs then jobs[id := jobs[id].(running := false)] else jobs
  }

  /** Deleting a library takes its jobs, and their items, with it. */
  function WithoutLibrary(jobs: Jobs, library: Key): Jobs {
    map id | id in jobs && jobs[id].library != library :: jobs[id]
  }

  // ---- A job's books -----------------------------------------------------------------------

  function Having(statuses: map<Key, Status>, status: Status): set<Key> {
    set s | s in statuses && statuses[s] == status
  }

  /** The counters count the items, and a job that is not running has nothing left. */
  ghost predicate JobOk(job: Job) {
    && OrderedDict.Distinct(job.order)
    && (forall s :: s in job.order <==> s in job.statuses)
    && job.total == |job.order|
    && job.linked == |Having(job.statuses, Linked)|
    && job.review == |Having(job.statuses, Review)|
    && job.failed == |Having(job.statuses, Failed)|
    && job.completed == job.linked + job.review + job.failed
    && job.completed + |Having(job.statuses, Pending)| == job.total
    && (!job.running ==> job.completed == job.total)
  }

  lemma {:induction false} DeduplicatedDistinct(series: seq<Key>)
    ensures OrderedDict.Distinct(Deduplicated(series))
    ensures forall s :: s in Deduplicated(series) <==> s in series
  {
    if series != [] {
      DeduplicatedDistinct(series[..|series| - 1]);
      assert series == series[..|series| - 1] + [series[|series| - 1]];
    }
  }

  /** Where a series comes first in what was submitted. */
  ghost predicate FirstAt(series: seq<Key>, s: Key, n: nat) {
    n < |series| && series[n] == s && forall m :: 0 <= m < n ==> series[m] != s
  }

  /** A new job's items are in the order in which the series were submitted, each where it came first. */
  lemma {:induction false} OrderSubmitted(series: seq<Key>, i: nat, j: nat, m: nat, n: nat)
    requires i < j < |Deduplicated(series)|
    requires FirstAt(series, Deduplicated(series)[i], m) && FirstAt(series, Deduplicated(series)[j], n)
    ensures m < n
  {
    var (init, last) := (series[..|series| - 1], |series| - 1);
    var order := Deduplicated(init);
    DeduplicatedDistinct(init);
    assert series == init + [series[last]];
    if j < |order| {
      assert order[i] in init && order[j] in init;
      var a, b :| 0 <= a < last && init[a] == order[i] && 0 <= b < last && init[b] == order[j];
      assert FirstAt(init, order[i], m) && FirstAt(init, order[j], n);
      OrderSubmitted(init, i, j, m, n);
    } else {
      assert order[i] in init;
      var a :| 0 <= a < last && init[a] == order[i];
      assert n == last;
    }
  }

  lemma NewJobOk(library: Key, series: seq<Key>)
    ensures JobOk(NewJob(library, series))
    ensures forall s :: s in NewJob(library, series).statuses <==> s in series
  {
    var job := NewJob(library, series);
    DeduplicatedDistinct(series);
    OrderedDict.AsManyKeys(job.order);
    assert Having(job.statuses, Pending) == set s | s in job.order;
    assert Having(job.statuses, Linked) == {} && Having(job.statuses, Review) == {};
    assert Having(job.statuses, Failed) == {};
  }

  lemma HavingUpdate(statuses: map<Key, Status>, s: Key, outcome: Status, status: Status)
    requires s in statuses && statuses[s] == Pending && outcome != Pending
    ensures |Having(statuses[s := outcome], status)| ==
      |Having(statuses, status)| + OneIf(status == outcome) - OneIf(status == Pending)
  {
    var after := statuses[s := outcome];
    if status == outcome {
      assert Having(after, status) == Having(statuses, status) + {s};
    } else if status == Pending {
      assert Having(after, status) == Having(statuses, status) - {s};
    } else {
      assert Having(after, status) == Having(statuses, status);
    }
  }

  lemma SettleOk(job: Job, s: Key, outcome: Status)
    requires JobOk(job) && s in job.statuses && job.statuses[s] == Pending && outcome != Pending
    ensures JobOk(Settle(job, s, outcome)) && job.running
  {
    HavingUpdate(job.statuses, s, outcome, Pending);
    HavingUpdate(job.statuses, s, outcome, Linked);
    HavingUpdate(job.statuses, s, outcome, Review);
    HavingUpdate(job.statuses, s, outcome, Failed);
    assert s in Having(job.statuses, Pending);
    hide Having;
  }

  lemma {:induction false} PendingOfExact(order: seq<Key>, statuses: map<Key, Status>)
    ensures forall s :: s in PendingOf(order, statuses) <==> s in order && s in statuses && statuses[s] == Pending
  {
    if order != [] {
      PendingOfExact(order[1..], statuses);
      assert order == [order[0]] + order[1..];
    }
  }

  /** What is pending is listed in the order of its positions. */
  lemma {:induction false} PendingInOrder(order: seq<Key>, statuses: map<Key, Status>) returns (positions: seq<nat>)
    ensures |positions| == |PendingOf(order, statuses)|
    ensures forall i, j :: 0 <= i < j < |positions| ==> positions[i] < positions[j]
    ensures forall i :: 0 <= i < |positions| ==>
      positions[i] < |order| && order[positions[i]] == PendingOf(order, statuses)[i]
  {
    positions := [];
    if order != [] {
      var later := PendingInOrder(order[1..], statuses);
      var shifted := seq(|later|, i requires 0 <= i < |later| => later[i] + 1);
      var first := order[0] in statuses && statuses[order[0]] == Pending;
      positions := if first then [0] + shifted else shifted;
      assert PendingOf(order, statuses) == (if first then [order[0]] else []) + PendingOf(order[1..], statuses);
    }
  }

  lemma PendingSeriesExact(jobs: Jobs, id: Key, s: Key)
    requires id in jobs && JobOk(jobs[id])
    ensures s in PendingSeries(jobs, id) <==> s in jobs[id].statuses && jobs[id].statuses[s] == Pending
  {
    PendingOfExact(jobs[id].order, jobs[id].statuses);
  }

  lemma NothingPending(job: Job)
    requires JobOk(job) && forall s :: s in job.statuses ==> job.statuses[s] != Pending
    ensures job.completed == job.total && JobOk(job.(running := false))
  {
  }

  // ---- Runners -----------------------------------------------------------------------------

  /** Where a runner stands with the first series of its list. */
  datatype Phase = Next | Inspected | Searching | Decided(outcome: Status)

  datatype Runner = Runner(job: Key, todo: seq<Key>, phase: Phase)

  /** `links` are the series with saved metadata; `used` the job identifiers ever drawn. */
  datatype State = State(jobs: Jobs, runners: map<int, Runner>, links: set<Key>, enabled: set<Key>, used: set<Key>)

  datatype Step =
    | Create(id: Key, library: Key, series: seq<Key>)
    | Begin(r: int, id: Key)                 // list the pending series of a job
    | Inspect(r: int, present: bool)         // is the series still there, and a manga?
    | Check(r: int)                          // keep an existing match
    | Search(r: int, found: Found)           // raise, or no clear winner, or link the winner
    | Finish(r: int)
    | Complete(r: int)
    | Die(r: int)                            // an exception or a cancellation, once the runner's thread has ended
    | Crash
    | Edit(links: set<Key>, enabled: set<Key>)
    | Forget(library: Key)

  ghost function NextRunner(s: State, r: int, runner: Runner): State {
    s.(runners := s.runners[r := runner])
  }

  ghost predicate Facing(s: State, r: int, phase: Phase) {
    r in s.runners && s.runners[r].todo != [] && s.runners[r].phase == phase
  }

  /** One step; a step that is not possible changes nothing. */
  ghost function Do(s: State, step: Step): State {
    match step
    case Create(id, library, series) =>
      if AnyRunning(s.jobs) || library !in s.enabled || id in s.used then s
      else s.(jobs := s.jobs[id := NewJob(library, series)], used := s.used + {id})
    case Begin(r, id) =>
      if r in s.runners || id !in s.used then s
      else NextRunner(s, r, Runner(id, PendingSeries(s.jobs, id), Next))
    case Inspect(r, present) =>
      if !Facing(s, r, Next) then s
      else NextRunner(s, r, s.runners[r].(phase := if present then Inspected else Decided(Failed)))
    case Check(r) =>
      if !Facing(s, r, Inspected) then s
      else
        NextRunner(s, r,
          s.runners[r].(phase := if s.runners[r].todo[0] in s.links then Decided(Review) else Searching))
    case Search(r, found) =>
      if !Facing(s, r, Searching) then s
      else
        s.(runners := s.runners[r := s.runners[r].(phase := Decided(found.Verdict()))],
          links := if found.Saves() then s.links + {s.runners[r].todo[0]} else s.links)
    case Finish(r) =>
      if !(r in s.runners && s.runners[r].todo != [] && s.runners[r].phase.Decided?) then s
      else
        var runner := s.runners[r];
        s.(jobs := FinishItem(s.jobs, runner.job, runner.todo[0], runner.phase.outcome),
          runners := s.runners[r := Runner(runner.job, runner.todo[1..], Next)])
    case Complete(r) =>
      if !(r in s.runners && s.runners[r].todo == []) then s
      else s.(jobs := CompleteJob(s.jobs, s.runners[r].job), runners := s.runners - {r})
    case Die(r) => s.(runners := s.runners - {r})
    case Crash => s.(runners := map[])
    case Edit(links, enabled) => s.(links := links, enabled := enabled)
    case Forget(library) => s.(jobs := WithoutLibrary(s.jobs, library), enabled := s.enabled - {library})
  }

  ghost function Run(steps: seq<Step>): State
    decreases |steps|
  {
    if steps == [] then State(map[], map[], {}, {}, {}) else Do(Run(steps[..|steps| - 1]), steps[|steps| - 1])
  }

  // ---- The invariant -----------------------------------------------------------------------

  /** Whatever is still pending is on the runner's list, and what it decided is an outcome. */
  ghost predicate RunnerOk(jobs: Jobs, runner: Runner) {
    && (runner.phase.Decided? ==> runner.phase.outcome != Pending)
    && (runner.phase != Next ==> runner.todo != [])
    && (runner.job in jobs ==>
      forall s :: s in jobs[runner.job].statuses && jobs[runner.job].statuses[s] == Pending ==> s in runner.todo)
  }

  ghost predicate OneRunning(jobs: Jobs) {
    forall a, b :: a in jobs && b in jobs && jobs[a].running && jobs[b].running ==> a == b
  }

  ghost predicate JobsOk(jobs: Jobs) {
    forall id :: id in jobs ==> JobOk(jobs[id])
  }

  ghost predicate RunnersOk(jobs: Jobs, runners: map<int, Runner>) {
    forall r :: r in runners ==> RunnerOk(jobs, runners[r])
  }

  ghost predicate Inv(s: State) {
    && JobsOk(s.jobs)
    && OneRunning(s.jobs)
    && RunnersOk(s.jobs, s.runners)
    && (forall id :: id in s.jobs ==> id in s.used)
    && (forall r :: r in s.runners ==> s.runners[r].job in s.used)
  }

  /** The transactions never take an item back to pending or change an outcome. */
  ghost predicate Forward(before: Jobs, after: Jobs) {
    forall id, s :: id in before && id in after && s in before[id].statuses ==>
      && s in after[id].statuses
      && (before[id].statuses[s] != Pending ==> after[id].statuses[s] == before[id].statuses[s])
  }

  lemma FinishItemOk(jobs: Jobs, id: Key, s: Key, outcome: Status)
    requires JobsOk(jobs) && OneRunning(jobs) && outcome != Pending
    ensures var after := FinishItem(jobs, id, s, outcome); JobsOk(after) && OneRunning(after) && after.Keys == jobs.Keys
  {
    if id in jobs && s in jobs[id].statuses && jobs[id].statuses[s] == Pending {
      SettleOk(jobs[id], s, outcome);
    }
    hide JobOk;
  }

  lemma FinishItemForward(jobs: Jobs, id: Key, s: Key, outcome: Status)
    ensures Forward(jobs, FinishItem(jobs, id, s, outcome))
  {
  }

  lemma FinishRunners(jobs: Jobs, runners: map<int, Runner>, r: int)
    requires RunnersOk(jobs, runners) && r in runners && runners[r].todo != [] && runners[r].phase.Decided?
    ensures var (id, todo) := (runners[r].job, runners[r].todo);
      RunnersOk(FinishItem(jobs, id, todo[0], runners[r].phase.outcome), runners[r := Runner(id, todo[1..], Next)])
  {
  }

  lemma FinishOk(s: State, r: int)
    requires Inv(s) && r in s.runners && s.runners[r].todo != [] && s.runners[r].phase.Decided?
    ensures Inv(Do(s, Finish(r)))
  {
    var runner := s.runners[r];
    assert RunnerOk(s.jobs, runner);
    FinishItemOk(s.jobs, runner.job, runner.todo[0], runner.phase.outcome);
    FinishRunners(s.jobs, s.runners, r);
    hide FinishItem, JobsOk, OneRunning, RunnersOk, RunnerOk;
    assert Do(s, Finish(r)).used == s.used;
  }

  lemma CompletedJobsOk(jobs: Jobs, id: Key)
    requires JobsOk(jobs) && OneRunning(jobs)
    requires id in jobs ==> JobOk(jobs[id].(running := false))
    ensures var after := CompleteJob(jobs, id); JobsOk(after) && OneRunning(after) && after.Keys == jobs.Keys
  {
  }

  lemma CompleteJobOk(s: State, r: int)
    requires Inv(s) && r in s.runners && s.runners[r].todo == []
    ensures Inv(Do(s, Complete(r)))
    ensures s.runners[r].job in s.jobs ==>
      s.jobs[s.runners[r].job].completed == s.jobs[s.runners[r].job].total
  {
    var (runner, after) := (s.runners[r], Do(s, Complete(r)));
    assert RunnerOk(s.jobs, runner);
    if runner.job in s.jobs {
      NothingPending(s.jobs[runner.job]);
    }
    CompletedJobsOk(s.jobs, runner.job);
    hide JobsOk, OneRunning;
    forall q | q in after.runners
      ensures RunnerOk(after.jobs, after.runners[q])
    {
      assert RunnerOk(s.jobs, s.runners[q]);
    }
    hide RunnerOk;
  }

  lemma CreateOk(s: State, id: Key, library: Key, series: seq<Key>)
    requires Inv(s)
    ensures Inv(Do(s, Create(id, library, series)))
  {
    NewJobOk(library, series);
    hide JobOk, NewJob;
    var after := Do(s, Create(id, library, series));
    forall q | q in after.runners
      ensures RunnerOk(after.jobs, after.runners[q])
    {
      assert RunnerOk(s.jobs, s.runners[q]);
    }
  }

  lemma BegunOk(jobs: Jobs, id: Key)
    requires JobsOk(jobs)
    ensures RunnerOk(jobs, Runner(id, PendingSeries(jobs, id), Next))
  {
    if id in jobs {
      PendingOfExact(jobs[id].order, jobs[id].statuses);
      assert JobOk(jobs[id]);
    }
    hide PendingOf;
  }

  lemma BeginOk(s: State, r: int, id: Key)
    requires Inv(s)
    ensures Inv(Do(s, Begin(r, id)))
  {
    BegunOk(s.jobs, id);
    hide JobsOk, PendingSeries, RunnerOk, OneRunning;
  }

  lemma DoOk(s: State, step: Step)
    requires Inv(s)
    ensures Inv(Do(s, step))
  {
    match step
    case Create(id, library, series) => CreateOk(s, id, library, series);
    case Begin(r, id) => BeginOk(s, r, id);
    case Finish(r) =>
      if r in s.runners && s.runners[r].todo != [] && s.runners[r].phase.Decided? {
        FinishOk(s, r);
      }
    case Complete(r) =>
      if r in s.runners && s.runners[r].todo == [] {
        CompleteJobOk(s, r);
      }
    case Forget(library) =>
      hide JobOk;
      forall r | r in s.runners
        ensures RunnerOk(WithoutLibrary(s.jobs, library), s.runners[r])
      {
        assert RunnerOk(s.jobs, s.runners[r]);
      }
    case _ =>
      hide JobOk;
  }

  // ---- Whole runs --------------------------------------------------------------------------

  /** Across any crashes, restarts and interleaved runners: at most one job is running, every job's counters
      are those of its items, and a job marked complete has completed its total. */
  lemma {:induction false} RunOk(steps: seq<Step>)
    ensures Inv(Run(steps))
    decreases |steps|
  {
    if steps != [] {
      RunOk(steps[..|steps| - 1]);
      DoOk(Run(steps[..|steps| - 1]), steps[|steps| - 1]);
    }
  }

  lemma DoForward(s: State, step: Step)
    requires Inv(s)
    ensures Forward(s.jobs, Do(s, step).jobs)
  {
    hide JobsOk, OneRunning, RunnersOk;
    match step
    case Finish(r) =>
      if r in s.runners && s.runners[r].todo != [] && s.runners[r].phase.Decided? {
        FinishItemForward(s.jobs, s.runners[r].job, s.runners[r].todo[0], s.runners[r].phase.outcome);
        hide FinishItem, Forward;
      }
    case _ =>
      hide JobOk, Settle, PendingSeries, NewJob;
  }

  /** Job identifiers are drawn once, so a job that is gone does not come back. */
  lemma {:induction false} RunForward(steps: seq<Step>, more: seq<Step>)
    ensures Forward(Run(steps).jobs, Run(steps + more).jobs)
    ensures forall id :: id in Run(steps).used && id in Run(steps + more).jobs ==> id in Run(steps).jobs
    ensures Run(steps).used <= Run(steps + more).used
    decreases |more|
  {
    if more == [] {
      assert steps + more == steps;
    } else {
      var (init, last) := (more[..|more| - 1], more[|more| - 1]);
      RunForward(steps, init);
      RunOk(steps + init);
      DoForward(Run(steps + init), last);
      assert (steps + more)[..|steps + more| - 1] == steps + init && (steps + more)[|steps + more| - 1] == last;
      StillThere(Run(steps + init), last);
      RunOk(steps);
      ForwardChains(Run(steps).jobs, Run(steps + init).jobs, Run(steps + more).jobs, Run(steps + init).used);
      hide Do, Forward;
    }
  }

  lemma StillThere(s: State, step: Step)
    requires Inv(s)
    ensures s.used <= Do(s, step).used
    ensures forall id :: id in Do(s, step).jobs && id in s.used ==> id in s.jobs
  {
    hide JobsOk, OneRunning, RunnersOk, NewJob, PendingSeries, Settle;
  }

  lemma ForwardChains(a: Jobs, b: Jobs, c: Jobs, known: set<Key>)
    requires Forward(a, b) && Forward(b, c) && a.Keys <= known
    requires forall id :: id in c && id in known ==> id in b
    ensures Forward(a, c)
  {
  }

  /** An item that has left pending keeps its outcome for as long as its job exists, whatever happens: it
      leaves pending at most once. */
  lemma OutcomeIsFinal(steps: seq<Step>, more: seq<Step>, id: Key, s: Key)
    requires id in Run(steps).jobs && s in Run(steps).jobs[id].statuses && Run(steps).jobs[id].statuses[s] != Pending
    requires id in Run(steps + more).jobs
    ensures s in Run(steps + more).jobs[id].statuses
    ensures Run(steps + more).jobs[id].statuses[s] == Run(steps).jobs[id].statuses[s]
  {
    RunForward(steps, more);
  }

  lemma SettledCount(statuses: map<Key, Status>)
    ensures |statuses.Keys - Having(statuses, Pending)| + |Having(statuses, Pending)| == |statuses.Keys|
  {
    var pending := Having(statuses, Pending);
    assert pending <= statuses.Keys;
    hide Having;
    assert statuses.Keys == (statuses.Keys - pending) + pending;
  }

  lemma TotalCounts(job: Job)
    requires JobOk(job)
    ensures job.total == |job.statuses.Keys|
  {
    OrderedDict.AsManyKeys(job.order);
    assert job.statuses.Keys == set s | s in job.order;
    hide Having;
  }

  lemma JobBooks(job: Job)
    requires JobOk(job)
    ensures job.completed == job.linked + job.review + job.failed == |job.statuses.Keys - Having(job.statuses, Pending)|
    ensures job.total == |job.statuses|
    ensures !job.running ==> job.completed == job.total && Having(job.statuses, Pending) == {}
  {
    SettledCount(job.statuses);
    TotalCounts(job);
    hide Having, OrderedDict.Distinct;
  }

  /** In every reachable state: one job at most is running; a job has completed as many items as have left
      pending, each counted under its outcome; and only a job with nothing pending is marked complete. */
  lemma BooksBalance(steps: seq<Step>, id: Key)
    requires id in Run(steps).jobs
    ensures var job := Run(steps).jobs[id];
      && job.completed == job.linked + job.review + job.failed == |job.statuses.Keys - Having(job.statuses, Pending)|
      && job.total == |job.statuses|
      && (!job.running ==> job.completed == job.total && Having(job.statuses, Pending) == {})
      && (job.running ==> forall other :: other in Run(steps).jobs && Run(steps).jobs[other].running ==> other == id)
  {
    RunOk(steps);
    hide Run;
    assert JobOk(Run(steps).jobs[id]);
    JobBooks(Run(steps).jobs[id]);
    hide JobOk, Having, RunnersOk;
  }

  /** How a search is filed, if nothing comes between: linked, under review when there is no clear winner, and failed
      on any error, even one after the match was saved. */
  lemma SearchFiled(s: State, r: int, found: Found)
    requires Facing(s, r, Searching) && StillPending(s.jobs, s.runners[r].job, s.runners[r].todo[0])
    ensures var (id, series) := (s.runners[r].job, s.runners[r].todo[0]);
      var filed := Do(Do(s, Search(r, found)), Finish(r));
      && id in filed.jobs && series in filed.jobs[id].statuses
      && (filed.jobs[id].statuses[series] == Linked <==> found == Links)
      && (filed.jobs[id].statuses[series] == Review <==> found == Unclear)
      && (filed.jobs[id].statuses[series] == Failed <==> found == Raises || found == LinksThenRaises)
      && (series in filed.links <==> series in s.links || found == Links || found == LinksThenRaises)
  {
  }

  // ---- What `linked` counts ----------------------------------------------------------------

  ghost predicate Flies(runner: Runner, id: Key) {
    runner.job == id && runner.phase == Decided(Linked)
  }

  /** The job's runners that have linked a series and not yet filed it. */
  ghost function Flying(runners: map<int, Runner>, id: Key): set<int> {
    set r | r in runners && Flies(runners[r], id)
  }

  ghost predicate StillPending(jobs: Jobs, id: Key, s: Key) {
    id in jobs && s in jobs[id].statuses && jobs[id].statuses[s] == Pending
  }

  /** A runner of the job saves a match. */
  ghost predicate Makes(s: State, step: Step, id: Key) {
    step.Search? && Facing(s, step.r, Searching) && s.runners[step.r].job == id && step.found.Saves()
  }

  /** The steps that take a match out of the count: an error after the save; a death or a crash between the save
      and the filing; and a filing that comes after another runner of the job has settled the item. */
  ghost predicate Loses(s: State, step: Step, id: Key) {
    match step
    case Search(r, found) => Makes(s, step, id) && found.LinksThenRaises?
    case Die(r) => r in Flying(s.runners, id)
    case Crash => Flying(s.runners, id) != {}
    case Finish(r) =>
      && r in Flying(s.runners, id)
      && s.runners[r].todo != []
      && !StillPending(s.jobs, id, s.runners[r].todo[0])
    case _ => false
  }

  ghost function LostBy(s: State, step: Step, id: Key): nat {
    if !Loses(s, step, id) then 0 else if step.Crash? then |Flying(s.runners, id)| else 1
  }

  /** The matches the job's runners have saved in a run, and those that were lost to the count. */
  ghost function Made(steps: seq<Step>, id: Key): nat
    decreases |steps|
  {
    if steps == [] then 0
    else
      var init := steps[..|steps| - 1];
      Made(init, id) + OneIf(Makes(Run(init), steps[|steps| - 1], id))
  }

  ghost function Lost(steps: seq<Step>, id: Key): nat
    decreases |steps|
  {
    if steps == [] then 0
    else
      var init := steps[..|steps| - 1];
      Lost(init, id) + LostBy(Run(init), steps[|steps| - 1], id)
  }

  lemma FlyingWithout(runners: map<int, Runner>, r: int, id: Key)
    ensures |Flying(runners, id)| == |Flying(runners - {r}, id)| + OneIf(r in Flying(runners, id))
  {
    if r in Flying(runners, id) {
      assert Flying(runners, id) == Flying(runners - {r}, id) + {r};
    } else {
      assert Flying(runners, id) == Flying(runners - {r}, id);
    }
  }

  lemma FlyingUpdate(runners: map<int, Runner>, r: int, runner: Runner, id: Key)
    ensures |Flying(runners[r := runner], id)| + OneIf(r in Flying(runners, id))
      == |Flying(runners, id)| + OneIf(Flies(runner, id))
  {
    FlyingWithout(runners, r, id);
    FlyingWithout(runners[r := runner], r, id);
    assert runners[r := runner] - {r} == runners - {r};
    assert r in Flying(runners[r := runner], id) <==> Flies(runner, id);
    hide Flying, Flies;
  }

  lemma FinishAccounted(s: State, r: int, id: Key)
    requires Inv(s) && id in s.jobs && r in s.runners && s.runners[r].todo != [] && s.runners[r].phase.Decided?
    ensures var after := Do(s, Finish(r));
      && id in after.jobs
      && after.jobs[id].linked + |Flying(after.runners, id)| + LostBy(s, Finish(r), id)
        == s.jobs[id].linked + |Flying(s.runners, id)|
  {
    var runner := s.runners[r];
    FlyingUpdate(s.runners, r, Runner(runner.job, runner.todo[1..], Next), id);
    hide JobsOk, OneRunning, RunnersOk;
  }

  /** One step's account. */
  lemma StepAccounted(s: State, step: Step, id: Key)
    requires Inv(s) && id in s.jobs && id in Do(s, step).jobs
    ensures var after := Do(s, step);
      after.jobs[id].linked + |Flying(after.runners, id)| + LostBy(s, step, id)
        == s.jobs[id].linked + |Flying(s.runners, id)| + OneIf(Makes(s, step, id))
  {
    hide JobsOk, OneRunning, JobOk, PendingSeries, NewJob;
    match step
    case Finish(r) =>
      if r in s.runners && s.runners[r].todo != [] && s.runners[r].phase.Decided? {
        FinishAccounted(s, r, id);
        hide Flying;
      }
    case Complete(r) =>
      if r in s.runners && s.runners[r].todo == [] {
        assert RunnerOk(s.jobs, s.runners[r]);
        FlyingWithout(s.runners, r, id);
      }
    case Die(r) =>
      FlyingWithout(s.runners, r, id);
    case Begin(r, job) =>
      FlyingUpdate(s.runners, r, Runner(job, PendingSeries(s.jobs, job), Next), id);
    case Inspect(r, present) =>
      if Facing(s, r, Next) {
        FlyingUpdate(s.runners, r, s.runners[r].(phase := if present then Inspected else Decided(Failed)), id);
      }
    case Check(r) =>
      if Facing(s, r, Inspected) {
        FlyingUpdate(s.runners, r, Do(s, step).runners[r], id);
      }
    case Search(r, found) =>
      if Facing(s, r, Searching) {
        FlyingUpdate(s.runners, r, s.runners[r].(phase := Decided(found.Verdict())), id);
      }
    case Crash =>
      assert Flying(map[], id) == {};
    case _ =>
  }

  lemma NothingFlies(s: State, step: Step, id: Key)
    requires Inv(s) && id !in s.used
    ensures Flying(s.runners, id) == {} && !Makes(s, step, id) && !Loses(s, step, id)
  {
    hide JobsOk, OneRunning, RunnersOk;
    assert forall r :: r in s.runners ==> s.runners[r].job in s.used;
    assert forall r :: r !in Flying(s.runners, id);
  }

  /** Nothing is made for a job before it is created. */
  lemma {:induction false} NoneBefore(steps: seq<Step>, id: Key)
    requires id !in Run(steps).used
    ensures Made(steps, id) == 0 && Lost(steps, id) == 0
    decreases |steps|
  {
    if steps != [] {
      var (init, last) := (steps[..|steps| - 1], steps[|steps| - 1]);
      RunOk(init);
      StillThere(Run(init), last);
      NoneBefore(init, id);
      NothingFlies(Run(init), last, id);
      hide Do, Inv, Makes, Loses;
    }
  }

  lemma FirstAccount(s: State, step: Step, id: Key)
    requires Inv(s) && id !in s.jobs && id in Do(s, step).jobs
    ensures id !in s.used
    ensures var after := Do(s, step); after.jobs[id].linked == 0 && Flying(after.runners, id) == {}
  {
    hide JobsOk, OneRunning, RunnersOk, PendingSeries, Settle;
    assert step.Create? && step.id == id;
    assert Do(s, step).runners == s.runners;
    NothingFlies(s, step, id);
  }

  /** Every match a job's runners have saved is counted, or on its way to be counted, or lost. */
  lemma {:induction false} LinksAccounted(steps: seq<Step>, id: Key)
    requires id in Run(steps).jobs
    ensures Run(steps).jobs[id].linked + |Flying(Run(steps).runners, id)| + Lost(steps, id) == Made(steps, id)
    decreases |steps|
  {
    var (init, last) := (steps[..|steps| - 1], steps[|steps| - 1]);
    RunOk(init);
    if id in Run(init).jobs {
      LinksAccounted(init, id);
      StepAccounted(Run(init), last, id);
    } else {
      FirstAccount(Run(init), last, id);
      NoneBefore(init, id);
      NothingFlies(Run(init), last, id);
    }
    hide Do, Inv, Makes, LostBy, Flying;
  }

  /** Some step of the run lost a match. */
  ghost predicate LosesAt(steps: seq<Step>, i: nat, id: Key)
    requires i < |steps|
  {
    Loses(Run(steps[..i]), steps[i], id)
  }

  lemma LosesAtInit(steps: seq<Step>, i: nat, id: Key)
    requires i + 1 < |steps|
    ensures LosesAt(steps, i, id) == LosesAt(steps[..|steps| - 1], i, id)
  {
    assert steps[..|steps| - 1][..i] == steps[..i];
    hide Loses, Run;
  }

  lemma {:induction false} LostNone(steps: seq<Step>, id: Key)
    ensures Lost(steps, id) == 0 <==> forall i :: 0 <= i < |steps| ==> !LosesAt(steps, i, id)
    decreases |steps|
  {
    if steps != [] {
      var (init, last) := (steps[..|steps| - 1], steps[|steps| - 1]);
      LostNone(init, id);
      assert LostBy(Run(init), last, id) == 0 <==> !LosesAt(steps, |init|, id);
      forall i | 0 <= i < |init|
        ensures LosesAt(steps, i, id) == LosesAt(init, i, id)
      {
        LosesAtInit(steps, i, id);
      }
      hide LosesAt, LostBy, Run;
    }
  }

  /** `linked` is the number of matches the job's runners have saved exactly when no step of the run lost one and
      none is on its way; otherwise it is smaller. */
  lemma LinkedCountsLinksMade(steps: seq<Step>, id: Key)
    requires id in Run(steps).jobs
    ensures Run(steps).jobs[id].linked <= Made(steps, id)
    ensures Run(steps).jobs[id].linked == Made(steps, id) <==>
      && Flying(Run(steps).runners, id) == {}
      && forall i :: 0 <= i < |steps| ==> !LosesAt(steps, i, id)
  {
    LinksAccounted(steps, id);
    LostNone(steps, id);
    hide Run, Made, Lost, LosesAt, Flies;
  }

  // ---- Runs that lose a link ---------------------------------------------------------------

  lemma RunOne(steps: seq<Step>, step: Step)
    ensures Run(steps + [step]) == Do(Run(steps), step)
  {
    assert (steps + [step])[..|steps|] == steps;
    hide Do;
  }

  /** A job with one item, up to the point where its runner is about to search. */
  function Opening(id: Key, library: Key, series: Key): seq<Step> {
    [Edit({}, {library}), Create(id, library, [series]), Begin(0, id), Inspect(0, true), Check(0)]
  }

  ghost predicate Opened(s: State, id: Key, series: Key) {
    && s.jobs.Keys == {id}
    && s.jobs[id].order == [series]
    && s.jobs[id].statuses == map[series := Pending]
    && s.runners == map[0 := Runner(id, [series], Searching)]
    && s.links == {}
    && s.used == {id}
  }

  lemma OpeningOpens(id: Key, library: Key, series: Key)
    ensures Opened(Run(Opening(id, library, series)), id, series)
  {
    var steps := Opening(id, library, series);
    var s1 := Do(State(map[], map[], {}, {}, {}), steps[0]);
    var s2 := Do(s1, steps[1]);
    assert Deduplicated([series]) == [series] by {
      assert Deduplicated([]) == [];
    }
    assert s2.jobs == map[id := NewJob(library, [series])];
    var s3 := Do(s2, steps[2]);
    assert PendingOf([series], s2.jobs[id].statuses) == [series];
    assert s3.runners == map[0 := Runner(id, [series], Next)];
    var s4 := Do(s3, steps[3]);
    assert s4.runners == map[0 := Runner(id, [series], Inspected)];
    var s5 := Do(s4, steps[4]);
    assert s5.runners == map[0 := Runner(id, [series], Searching)];
    hide Do;
    RunOne([], steps[0]);
    RunOne(steps[..1], steps[1]);
    RunOne(steps[..2], steps[2]);
    RunOne(steps[..3], steps[3]);
    RunOne(steps[..4], steps[4]);
    hide Run;
    assert [] + [steps[0]] == steps[..1] && steps[..1] + [steps[1]] == steps[..2];
    assert steps[..2] + [steps[2]] == steps[..3] && steps[..3] + [steps[3]] == steps[..4];
    assert steps[..4] + [steps[4]] == steps;
  }

  /** The job is there and, whatever happens next, its `linked` stays short of the matches saved for it. */
  ghost predicate StaysShort(steps: seq<Step>, id: Key) {
    && id in Run(steps).jobs
    && forall more :: id in Run(steps + more).jobs ==> Run(steps + more).jobs[id].linked < Made(steps + more, id)
  }

  lemma LossStays(steps: seq<Step>, i: nat, id: Key)
    requires i < |steps| && LosesAt(steps, i, id) && id in Run(steps).jobs
    ensures StaysShort(steps, id)
  {
    forall more | id in Run(steps + more).jobs
      ensures Run(steps + more).jobs[id].linked < Made(steps + more, id)
    {
      LinkedCountsLinksMade(steps + more, id);
      assert (steps + more)[..i] == steps[..i] && (steps + more)[i] == steps[i];
      assert LosesAt(steps + more, i, id);
    }
  }

  lemma FliesAlone(runners: map<int, Runner>, r: int, id: Key)
    requires r in runners && Flies(runners[r], id)
    ensures r in Flying(runners, id)
  {
  }

  lemma LostToCrash(opening: seq<Step>, id: Key, series: Key)
    requires Opened(Run(opening), id, series)
    ensures StaysShort(opening + [Search(0, Links)] + [Crash], id)
  {
    var linked := opening + [Search(0, Links)];
    RunOne(opening, Search(0, Links));
    RunOne(linked, Crash);
    FliesAlone(Run(linked).runners, 0, id);
    assert (linked + [Crash])[..|linked|] == linked;
    hide Run;
    assert LosesAt(linked + [Crash], |linked|, id);
    LossStays(linked + [Crash], |linked|, id);
  }

  lemma LostToCover(opening: seq<Step>, id: Key, series: Key)
    requires Opened(Run(opening), id, series)
    ensures StaysShort(opening + [Search(0, LinksThenRaises)], id)
  {
    var steps := opening + [Search(0, LinksThenRaises)];
    RunOne(opening, Search(0, LinksThenRaises));
    assert steps[..|opening|] == opening;
    hide Run;
    assert LosesAt(steps, |opening|, id);
    LossStays(steps, |opening|, id);
  }

  /** Runner 0 has linked the series; runner 1 is about to look at it. */
  ghost predicate BothAtWork(s: State, id: Key, series: Key) {
    && s.jobs.Keys == {id}
    && s.jobs[id].statuses == map[series := Pending]
    && 0 in s.runners
    && s.runners[0] == Runner(id, [series], Decided(Linked))
    && 1 in s.runners
    && s.runners[1] == Runner(id, [series], Inspected)
    && series in s.links
  }

  lemma RaceStarts(opening: seq<Step>, id: Key, series: Key)
    requires Opened(Run(opening), id, series)
    ensures BothAtWork(Run(opening + [Begin(1, id)] + [Inspect(1, true)] + [Search(0, Links)]), id, series)
  {
    var begun := opening + [Begin(1, id)];
    var inspected := begun + [Inspect(1, true)];
    RunOne(opening, Begin(1, id));
    RunOne(begun, Inspect(1, true));
    RunOne(inspected, Search(0, Links));
    hide Run;
    assert PendingSeries(Run(opening).jobs, id) == [series] by {
      assert PendingOf([series], map[series := Pending]) == [series];
    }
    hide PendingSeries;
  }

  /** The second runner finds the first one's match and files the item before the first does. */
  lemma LostToRace(racing: seq<Step>, id: Key, series: Key)
    requires BothAtWork(Run(racing), id, series)
    ensures StaysShort(racing + [Check(1)] + [Finish(1)] + [Finish(0)], id)
  {
    var checked := racing + [Check(1)];
    var filed := checked + [Finish(1)];
    RunOne(racing, Check(1));
    RunOne(checked, Finish(1));
    RunOne(filed, Finish(0));
    hide Run;
    assert Run(checked).runners[1] == Runner(id, [series], Decided(Review));
    assert Run(filed).jobs[id].statuses[series] == Review;
    FliesAlone(Run(filed).runners, 0, id);
    assert (filed + [Finish(0)])[..|filed|] == filed;
    hide Flying, Settle;
    assert LosesAt(filed + [Finish(0)], |filed|, id);
    LossStays(filed + [Finish(0)], |filed|, id);
  }

  /** Each way to lose a link, from the empty tables. */
  lemma LinksLost(id: Key, library: Key, series: Key)
    ensures var opening := Opening(id, library, series);
      && StaysShort(opening + [Search(0, Links)] + [Crash], id)
      && StaysShort(opening + [Search(0, LinksThenRaises)], id)
      && StaysShort(
        opening + [Begin(1, id)] + [Inspect(1, true)] + [Search(0, Links)] + [Check(1)] + [Finish(1)] + [Finish(0)], id)
  {
    var opening := Opening(id, library, series);
    OpeningOpens(id, library, series);
    LostToCrash(opening, id, series);
    LostToCover(opening, id, series);
    RaceStarts(opening, id, series);
    LostToRace(opening + [Begin(1, id)] + [Inspect(1, true)] + [Search(0, Links)], id, series);
    hide Opening, Opened, BothAtWork, StaysShort;
  }
}
