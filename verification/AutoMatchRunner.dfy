/** The tables of the auto-match job as an object, and the coroutine that works a job off (`database.py`, `app.py`,
    `metadata.py`). */
module AutoMatchRunner {
  import opened Common
  import opened AutoMatchState
  import OrderedDict

  /** The outcome an item is filed under. */
  function Called(present: bool, linked: bool, found: Found): Status {
    if !present then Failed else if linked then Review else found.Verdict()
  }

  /** What the outside world answers for each series: is it still a manga here, and what the search finds. */
  datatype World = World(present: Key -> bool, search: Key -> Found)

  function CallOn(world: World, links: set<Key>, s: Key): Status {
    Called(world.present(s), s in links, world.search(s))
  }

  /** Whether a match is saved for the series. */
  predicate SavedOn(world: World, links: set<Key>, s: Key) {
    world.present(s) && s !in links && world.search(s).Saves()
  }

  function LinksWith(world: World, links: set<Key>, s: Key): set<Key> {
    if SavedOn(world, links, s) then links + {s} else links
  }

  /** The items on the list have the outcomes their series call for, every other item is as it was, and a match
      is saved for exactly the series on the list that have none and whose search saves one. */
  ghost predicate Settled(before: map<Key, Status>, after: map<Key, Status>, done: set<Key>, world: World,
    links: set<Key>, linksAfter: set<Key>)
  {
    && after.Keys == before.Keys
    && (forall s :: s in before ==> after[s] == if s in done then CallOn(world, links, s) else before[s])
    && (forall s :: s in linksAfter <==> s in links || (s in done && SavedOn(world, links, s)))
  }

  /** Only one job's row and items differ. */
  ghost predicate OnlyJob(before: Jobs, after: Jobs, id: Key) {
    after.Keys == before.Keys && forall other :: other in before && other != id ==> after[other] == before[other]
  }

  /** Part of a job done. */
  ghost predicate Progress(before: Jobs, after: Jobs, id: Key, done: set<Key>, world: World, links: set<Key>,
    linksAfter: set<Key>)
  {
    && OnlyJob(before, after, id)
    && JobsOk(after)
    && OneRunning(after)
    && (id in before ==> Settled(before[id].statuses, after[id].statuses, done, world, links, linksAfter))
  }

  lemma SettledStep(before: map<Key, Status>, after: map<Key, Status>, done: set<Key>, world: World, links: set<Key>,
    linksAfter: set<Key>, s: Key, outcome: Status)
    requires Settled(before, after, done, world, links, linksAfter)
    requires s in before && s !in done && outcome == CallOn(world, links, s)
    ensures Settled(before, after[s := outcome], done + {s}, world, links, LinksWith(world, linksAfter, s))
  {
  }

  lemma ProgressStep(before: Jobs, after: Jobs, id: Key, done: set<Key>, world: World, links: set<Key>,
    linksAfter: set<Key>, s: Key, outcome: Status)
    requires Progress(before, after, id, done, world, links, linksAfter) && id in before
    requires s in before[id].statuses && before[id].statuses[s] == Pending && s !in done
    requires outcome == CallOn(world, links, s)
    ensures Progress(before, FinishItem(after, id, s, outcome), id, done + {s}, world, links,
      LinksWith(world, linksAfter, s))
  {
    SettledStep(before[id].statuses, after[id].statuses, done, world, links, linksAfter, s, outcome);
    FinishItemOk(after, id, s, outcome);
    assert after[id].statuses[s] == Pending;
    FinishedStatuses(after, id, s, outcome);
    hide JobsOk, OneRunning, FinishItem, CallOn, LinksWith, Settled;
  }

  lemma ProgressDone(before: Jobs, after: Jobs, id: Key, done: set<Key>, world: World, links: set<Key>,
    linksAfter: set<Key>)
    requires Progress(before, after, id, done, world, links, linksAfter) && id in before
    requires Having(before[id].statuses, Pending) == done
    ensures Progress(before, CompleteJob(after, id), id, done, world, links, linksAfter)
    ensures var jobs := CompleteJob(after, id); id in jobs && !jobs[id].running && jobs[id].completed == jobs[id].total
  {
    assert JobOk(after[id]);
    forall s | s in after[id].statuses
      ensures after[id].statuses[s] != Pending
    {
      assert s in before[id].statuses && (before[id].statuses[s] == Pending <==> s in done);
    }
    NothingPending(after[id]);
    CompletedJobsOk(after, id);
    hide JobsOk, OneRunning, JobOk, CallOn;
  }

  /** What a job done undisturbed comes to, item by item: failed if the series is no manga of the catalog any more or
      its search raised an error, under review if it had a match or the search was not clear, linked if it was; a match
      is saved where there was none and the search saved one; and an item that was settled stays as it was. */
  lemma OutcomesExactly(before: Jobs, after: Jobs, id: Key, world: World, links: set<Key>, linksAfter: set<Key>, s: Key)
    requires id in before && s in before[id].statuses
    requires Progress(before, after, id, Having(before[id].statuses, Pending), world, links, linksAfter)
    ensures id in after && s in after[id].statuses
    ensures before[id].statuses[s] != Pending ==> after[id].statuses[s] == before[id].statuses[s]
    ensures before[id].statuses[s] == Pending ==>
      var (present, found, outcome) := (world.present(s), world.search(s), after[id].statuses[s]);
      && (outcome == Failed <==> !present || (s !in links && (found == Raises || found == LinksThenRaises)))
      && (outcome == Review <==> present && (s in links || found == Unclear))
      && (outcome == Linked <==> present && s !in links && found == Links)
    ensures s in linksAfter && s !in links <==>
      && before[id].statuses[s] == Pending
      && world.present(s)
      && s !in links
      && (world.search(s) == Links || world.search(s) == LinksThenRaises)
    ensures s in links ==> s in linksAfter
  {
    hide JobsOk, OneRunning;
  }

  lemma {:induction false} PendingOfDistinct(order: seq<Key>, statuses: map<Key, Status>)
    requires OrderedDict.Distinct(order)
    ensures OrderedDict.Distinct(PendingOf(order, statuses))
  {
    if order != [] {
      PendingOfDistinct(order[1..], statuses);
      PendingOfExact(order[1..], statuses);
    }
  }

  lemma PendingExact(jobs: Jobs, id: Key)
    requires JobsOk(jobs) && id in jobs
    ensures OrderedDict.Distinct(PendingSeries(jobs, id))
    ensures Having(jobs[id].statuses, Pending) == Elements(PendingSeries(jobs, id))
  {
    var job := jobs[id];
    assert JobOk(job);
    PendingOfDistinct(job.order, job.statuses);
    PendingOfExact(job.order, job.statuses);
  }

  lemma StartsSettled(statuses: map<Key, Status>, world: World, links: set<Key>)
    ensures Settled(statuses, statuses, {}, world, links, links)
  {
  }

  lemma LinksAsDone(before: map<Key, Status>, after: map<Key, Status>, done: set<Key>, world: World, links: set<Key>,
    linksAfter: set<Key>, s: Key)
    requires Settled(before, after, done, world, links, linksAfter) && s !in done
    ensures s in linksAfter <==> s in links
    ensures CallOn(world, links, s) == Called(world.present(s), s in linksAfter, world.search(s))
  {
  }

  function Elements(series: seq<Key>): set<Key> {
    set s | s in series
  }

  lemma ElementsStep(series: seq<Key>, i: nat)
    requires i < |series|
    ensures Elements(series[..i + 1]) == Elements(series[..i]) + {series[i]}
    ensures OrderedDict.Distinct(series) ==> series[i] !in Elements(series[..i])
    ensures series[i] in Elements(series)
  {
  }

  lemma NextSeries(before: Jobs, after: Jobs, id: Key, todo: seq<Key>, i: nat, done: set<Key>, world: World,
    links: set<Key>, linksAfter: set<Key>)
    requires Progress(before, after, id, done, world, links, linksAfter) && id in before
    requires i < |todo| && OrderedDict.Distinct(todo) && done == Elements(todo[..i])
    requires Having(before[id].statuses, Pending) == Elements(todo)
    ensures var (s, outcome) := (todo[i], CallOn(world, linksAfter, todo[i]));
      Progress(before, FinishItem(after, id, s, outcome), id, done + {s}, world, links, LinksWith(world, linksAfter, s))
    ensures done + {todo[i]} == Elements(todo[..i + 1])
  {
    var s := todo[i];
    ElementsStep(todo, i);
    assert s in Having(before[id].statuses, Pending) && s !in done;
    hide Elements;
    LinksAsDone(before[id].statuses, after[id].statuses, done, world, links, linksAfter, s);
    ProgressStep(before, after, id, done, world, links, linksAfter, s, CallOn(world, linksAfter, s));
    hide Progress, Settled, FinishItem, CallOn, LinksWith;
  }

  lemma FinishedStatuses(jobs: Jobs, id: Key, s: Key, outcome: Status)
    requires id in jobs && s in jobs[id].statuses && jobs[id].statuses[s] == Pending
    ensures var after := FinishItem(jobs, id, s, outcome);
      && after.Keys == jobs.Keys
      && after[id].statuses == jobs[id].statuses[s := outcome]
      && forall other :: other in jobs && other != id ==> after[other] == jobs[other]
  {
  }

  /** The tables, and the methods that change them. */
  class Repository {
    var jobs: Jobs
    var links: set<Key>
    var enabled: set<Key>

    constructor (links: set<Key>, enabled: set<Key>)
      ensures jobs == map[] && this.links == links && this.enabled == enabled
    {
      jobs, this.links, this.enabled := map[], links, enabled;
    }

    method CreateJob(id: Key, library: Key, series: seq<Key>) returns (created: bool)
      requires id !in jobs
      modifies this`jobs
      ensures created == (!AnyRunning(old(jobs)) && library in enabled)
      ensures jobs == if created then old(jobs)[id := NewJob(library, series)] else old(jobs)
    {
      var running := ActiveJob();
      if running.Some? || library !in enabled {
        return false;
      }
      jobs := jobs[id := NewJob(library, series)];
      return true;
    }

    method ActiveJob() returns (id: Option<Key>)
      ensures id.Some? ==> id.value in jobs && jobs[id.value].running
      ensures id.None? ==> !AnyRunning(jobs)
    {
      var running := set i | i in jobs && jobs[i].running;
      if running == {} {
        assert forall i :: i in jobs && jobs[i].running ==> i in running;
        return None;
      }
      ghost var some := Pick(running);
      var i :| i in running;
      return Some(i);
    }

    method Pending(id: Key) returns (series: seq<Key>)
      ensures series == PendingSeries(jobs, id)
    {
      if id !in jobs {
        return [];
      }
      series := [];
      var job := jobs[id];
      var i := 0;
      while i < |job.order|
        invariant i <= |job.order|
        invariant series + PendingOf(job.order[i..], job.statuses) == PendingOf(job.order, job.statuses)
      {
        assert job.order[i..][1..] == job.order[i + 1..];
        var s := job.order[i];
        if s in job.statuses && job.statuses[s] == Status.Pending {
          series := series + [s];
        }
        i := i + 1;
      }
    }

    method FinishItem(id: Key, s: Key, outcome: Status)
      requires outcome != Status.Pending
      modifies this`jobs
      ensures jobs == AutoMatchState.FinishItem(old(jobs), id, s, outcome)
    {
      if id !in jobs || s !in jobs[id].statuses || jobs[id].statuses[s] != Status.Pending {
        return;
      }
      var job := jobs[id];
      job := job.(statuses := job.statuses[s := outcome]);
      match outcome {
        case Linked => job := job.(completed := job.completed + 1, linked := job.linked + 1);
        case Review => job := job.(completed := job.completed + 1, review := job.review + 1);
        case Failed => job := job.(completed := job.completed + 1, failed := job.failed + 1);
      }
      jobs := jobs[id := job];
    }

    method CompleteJob(id: Key)
      modifies this`jobs
      ensures jobs == AutoMatchState.CompleteJob(old(jobs), id)
    {
      if id in jobs {
        jobs := jobs[id := jobs[id].(running := false)];
      }
    }

    /** `MetadataService.auto_match`: `None` is a raised error. `found` is what the provider's search, the title
        matcher and the fetch of the winner and its cover come to. */
    method AutoMatch(s: Key, found: Found) returns (outcome: Option<Status>)
      modifies this`links
      ensures s in old(links) ==> outcome == Some(Review)
      ensures s !in old(links) && !found.Raises? && !found.LinksThenRaises? ==> outcome == Some(found.Verdict())
      ensures s !in old(links) && (found.Raises? || found.LinksThenRaises?) ==> outcome == None
      ensures links == if s !in old(links) && found.Saves() then old(links) + {s} else old(links)
    {
      if s in links {
        return Some(Review);
      }
      match found {
        case Raises =>
          return None;
        case Unclear =>
          return Some(Review);
        case Links =>
          links := links + {s};
          return Some(Linked);
        case LinksThenRaises =>
          links := links + {s};
          return None;
      }
    }

    /** One turn of the runner's loop. */
    method RunItem(id: Key, s: Key, world: World)
      modifies this`jobs, this`links
      ensures jobs == AutoMatchState.FinishItem(old(jobs), id, s, CallOn(world, old(links), s))
      ensures links == LinksWith(world, old(links), s)
    {
      if !world.present(s) {
        FinishItem(id, s, Failed);
        return;
      }
      var outcome := AutoMatch(s, world.search(s));
      FinishItem(id, s, if outcome.Some? then outcome.value else Failed);
    }

    /** `_run_metadata_auto_match`, undisturbed: exactly the items still pending get the outcomes their series
        call for, no other job changes, and the job is complete. */
    method RunAutoMatch(id: Key, world: World)
      requires JobsOk(jobs) && OneRunning(jobs) && id in jobs
      modifies this`jobs, this`links
      ensures Progress(old(jobs), jobs, id, Having(old(jobs)[id].statuses, Status.Pending), world, old(links), links)
      ensures id in jobs && !jobs[id].running && jobs[id].completed == jobs[id].total
    {
      var seriesIds := Pending(id);
      ghost var done := {};
      PendingExact(jobs, id);
      StartsSettled(jobs[id].statuses, world, links);
      assert Progress(jobs, jobs, id, {}, world, links, links) && seriesIds[..0] == [];
      hide JobsOk, OneRunning, AutoMatchState.FinishItem, AutoMatchState.CompleteJob;
      hide CallOn, LinksWith, PendingSeries, Progress, Having;
      for i := 0 to |seriesIds|
        invariant Progress(old(jobs), jobs, id, done, world, old(links), links)
        invariant done == Elements(seriesIds[..i])
      {
        NextSeries(old(jobs), jobs, id, seriesIds, i, done, world, old(links), links);
        RunItem(id, seriesIds[i], world);
        done := done + {seriesIds[i]};
      }
      assert seriesIds[..|seriesIds|] == seriesIds;
      ProgressDone(old(jobs), jobs, id, done, world, old(links), links);
      CompleteJob(id);
    }

    /** Startup takes up the job an earlier process left running. */
    method Resume(world: World)
      requires JobsOk(jobs) && OneRunning(jobs)
      modifies this`jobs, this`links
      ensures JobsOk(jobs) && !AnyRunning(jobs)
      ensures Forward(old(jobs), jobs)
    {
      var active := ActiveJob();
      if active.Some? {
        RunAutoMatch(active.value, world);
      }
    }
  }
}
