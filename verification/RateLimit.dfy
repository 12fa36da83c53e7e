/** The persistent rolling-window limiter: `reserve_metadata_request` (`database.py`) and
    `PersistentRateLimiter.acquire` (`metadata.py`). Times are seconds. */
module RateLimit {
  import opened Common
  import OrderedDict

  const WINDOW := 60.0
  const NUDGE := 0.000001
  const LEAST_WAIT := 0.001
  const MOST := 30

  /** The events a reservation does not delete. */
  function Kept(events: set<real>, now: real): set<real> {
    set t | t in events && t > now - WINDOW
  }

  predicate IsOldest(events: set<real>, t: real) {
    t in events && forall u :: u in events ==> t <= u
  }

  lemma {:induction false} OldestExists(events: set<real>) returns (t: real)
    requires events != {}
    ensures IsOldest(events, t)
    decreases |events|
  {
    var any := Pick(events);
    var others := events - {any};
    t := any;
    if others != {} {
      var u := OldestExists(others);
      t := if u < any then u else any;
    }
    assert forall u :: u in events ==> u == any || u in others;
  }

  function Larger(x: real, y: real): real {
    if x >= y then x else y
  }

  function Later(events: set<real>, t: real): set<real> {
    set u | u in events && u >= t
  }

  lemma LaterShrinks(events: set<real>, t: real)
    requires t in events
    ensures |Later(events, t + NUDGE)| < |Later(events, t)|
  {
    SubsetCardinality(Later(events, t + NUDGE), Later(events, t));
    assert t in Later(events, t) && t !in Later(events, t + NUDGE);
  }

  /** The first free timestamp at or after `t`. */
  ghost function Nudged(events: set<real>, t: real): (r: real)
    ensures r >= t && r !in events
    decreases |Later(events, t)|
  {
    if t in events then LaterShrinks(events, t); Nudged(events, t + NUDGE) else t
  }

  lemma {:induction false} NudgedLittle(events: set<real>, t: real)
    ensures Nudged(events, t) <= t + |Later(events, t)| as real * NUDGE
    decreases |Later(events, t)|
  {
    if t in events {
      LaterShrinks(events, t);
      NudgedLittle(events, t + NUDGE);
    }
  }

  // ---- One reservation ---------------------------------------------------------------------

  ghost predicate Admits(events: set<real>, limit: nat, now: real) {
    |Kept(events, now)| < limit
  }

  ghost function Stamp(events: set<real>, now: real): real {
    Nudged(Kept(events, now), now)
  }

  ghost function Reserved(events: set<real>, limit: nat, now: real): set<real> {
    if Admits(events, limit, now) then Kept(events, now) + {Stamp(events, now)} else Kept(events, now)
  }

  /** How long a request that is not admitted is told to wait. */
  ghost predicate WaitFor(events: set<real>, now: real, wait: real) {
    exists t :: IsOldest(Kept(events, now), t) && wait == Larger(LEAST_WAIT, t + WINDOW - now)
  }

  class RateTable {
    var events: set<real>

    constructor ()
      ensures events == {}
    {
      events := {};
    }

    /** Reserve one request, or return how long to wait for one. */
    method Reserve(limit: nat, now: real) returns (wait: real)
      requires limit > 0
      modifies this
      ensures events == Reserved(old(events), limit, now)
      ensures if Admits(old(events), limit, now) then wait == 0.0 else WaitFor(old(events), now, wait)
    {
      events := Kept(events, now);
      if |events| >= limit {
        ghost var oldest := OldestExists(events);
        var first :| IsOldest(events, first);
        return Larger(LEAST_WAIT, first + WINDOW - now);
      }
      var timestamp := now;
      while timestamp in events
        invariant Nudged(events, timestamp) == Nudged(events, now)
        invariant events == Kept(old(events), now)
        decreases |Later(events, timestamp)|
      {
        LaterShrinks(events, timestamp);
        timestamp := timestamp + NUDGE;
      }
      events := events + {timestamp};
      wait := 0.0;
    }
  }

  /** Waiting as told expires an event. */
  lemma WaitExpiresOne(events: set<real>, now: real, wait: real, later: real)
    requires WaitFor(events, now, wait) && later >= now + wait
    ensures wait >= LEAST_WAIT
    ensures |Kept(Kept(events, now), later)| < |Kept(events, now)|
  {
    var t :| IsOldest(Kept(events, now), t) && wait == Larger(LEAST_WAIT, t + WINDOW - now);
    assert t !in Kept(Kept(events, now), later);
    SubsetCardinality(Kept(Kept(events, now), later), Kept(events, now));
  }

  /** The wait is exact: a request told to wait by a table that is just full, asking again with nobody in
      between, is admitted from the end of its wait on and, unless that is the least wait, not before. */
  lemma WaitIsExact(events: set<real>, limit: nat, now: real, wait: real, later: real)
    requires 0 < limit == |Kept(events, now)| && WaitFor(events, now, wait) && later >= now
    ensures later >= now + wait ==> Admits(Kept(events, now), limit, later)
    ensures wait > LEAST_WAIT && later < now + wait ==> !Admits(Kept(events, now), limit, later)
  {
    if later >= now + wait {
      WaitExpiresOne(events, now, wait, later);
    } else if wait > LEAST_WAIT {
      assert Kept(Kept(events, now), later) == Kept(events, now);
    }
  }

  /** The clock and the stored events an attempt meets. */
  datatype Attempt = Attempt(now: real, events: set<real>)

  /** The stored events of the last minute. */
  function LastMinute(a: Attempt): set<real> {
    set t | t in a.events && a.now - t < 60.0
  }

  /** How many requests a minute a setting allows: itself, but at least one and at most thirty. */
  ghost predicate Allows(setting: int, requests: int) {
    && (setting < 1 ==> requests == 1)
    && (1 <= setting <= 30 ==> requests == setting)
    && (setting > 30 ==> requests == 30)
  }

  /** The attempt is turned away, nothing but older events is deleted, and the next one comes when the oldest of the
      minute's events has left it, and not before a millisecond. */
  ghost predicate Refused(a: Attempt, setting: int, next: Attempt, oversleep: real) {
    && (exists requests :: Allows(setting, requests) && |LastMinute(a)| >= requests)
    && next.events == LastMinute(a)
    && exists oldest :: oldest in LastMinute(a) && (forall u :: u in LastMinute(a) ==> oldest <= u)
        && next.now == oversleep + if oldest + 60.0 >= a.now + 0.001 then oldest + 60.0 else a.now + 0.001
  }

  /** The attempt is let in: one event is added, at the first free microsecond from now. */
  ghost predicate Admitted(a: Attempt, setting: int, after: set<real>) {
    && (exists requests :: Allows(setting, requests) && |LastMinute(a)| < requests)
    && exists stamp :: after == LastMinute(a) + {stamp} && FirstFree(LastMinute(a), a.now, stamp)
  }

  /** So many microseconds after a moment. */
  function Microseconds(from: real, n: nat): real {
    from + n as real * 0.000001
  }

  ghost predicate FirstFree(events: set<real>, from: real, stamp: real) {
    && stamp !in events
    && exists n: nat ::
        && stamp == Microseconds(from, n)
        && forall m: nat :: m < n ==> Microseconds(from, m) in events
  }

  lemma KeptIsRecent(events: set<real>, now: real)
    ensures Kept(events, now) == LastMinute(Attempt(now, events))
  {
  }

  lemma RefusedAs(events: set<real>, setting: int, limit: nat, now: real, wait: real, oversleep: real)
    requires limit == if setting < 1 then 1 else if setting > MOST then MOST else setting
    requires !Admits(events, limit, now) && WaitFor(events, now, wait)
    ensures Refused(Attempt(now, events), setting, Attempt(now + wait + oversleep, Kept(events, now)), oversleep)
  {
    KeptIsRecent(events, now);
    assert Allows(setting, limit);
  }

  lemma {:induction false} NudgedIsFirst(events: set<real>, from: real, t: real, n: nat)
    requires t == Microseconds(from, n)
    requires forall m: nat :: m < n ==> Microseconds(from, m) in events
    ensures FirstFree(events, from, Nudged(events, t))
    decreases |Later(events, t)|
  {
    if t in events {
      LaterShrinks(events, t);
      assert t + NUDGE == Microseconds(from, n + 1);
      NudgedIsFirst(events, from, t + NUDGE, n + 1);
    }
  }

  lemma AdmittedAs(events: set<real>, setting: int, limit: nat, now: real)
    requires limit == if setting < 1 then 1 else if setting > MOST then MOST else setting
    requires Admits(events, limit, now)
    ensures Admitted(Attempt(now, events), setting, Reserved(events, limit, now))
  {
    KeptIsRecent(events, now);
    assert Allows(setting, limit);
    NudgedIsFirst(Kept(events, now), now, now, 0);
    hide FirstFree;
  }

  class PersistentRateLimiter {
    const repository: RateTable

    constructor (repository: RateTable)
      ensures this.repository == repository
    {
      this.repository := repository;
    }

    /** Retry until admitted. `configured` is the limit setting read on each attempt, `oversleep` how much
        longer than asked each sleep lasts, `start` the clock on entry. `tries` is what each attempt met: every one but
        the last found as many events of the last minute as its own setting allows, slept until the oldest of them was
        a minute old or longer, and the last found fewer. */
    method Acquire(configured: nat -> int, oversleep: nat -> real, start: real)
      returns (attempts: nat, now: real, ghost tries: seq<Attempt>)
      requires forall i :: oversleep(i) >= 0.0
      modifies repository
      ensures 0 < attempts == |tries| <= |Kept(old(repository.events), start)| + 1
      ensures now >= start
      ensures tries[0].now == start && tries[0].events == old(repository.events)
      ensures forall i :: 0 <= i < |tries| - 1 ==> Refused(tries[i], configured(i), tries[i + 1], oversleep(i + 1))
      ensures tries[attempts - 1].now == now
      ensures Admitted(tries[attempts - 1], configured(attempts - 1), repository.events)
    {
      attempts, now, tries := 0, start, [];
      hide Refused, Admitted, WaitFor;
      while true
        invariant |tries| == attempts && now >= start
        invariant attempts == 0 ==> now == start && repository.events == old(repository.events)
        invariant attempts > 0 ==> tries[0].now == start && tries[0].events == old(repository.events)
        invariant forall i :: 0 <= i < attempts - 1 ==> Refused(tries[i], configured(i), tries[i + 1], oversleep(i + 1))
        invariant attempts > 0 ==>
          Refused(tries[attempts - 1], configured(attempts - 1), Attempt(now, repository.events), oversleep(attempts))
        invariant attempts + |Kept(repository.events, now)| <= |Kept(old(repository.events), start)|
        decreases |Kept(repository.events, now)|
      {
        ghost var before := repository.events;
        var setting := configured(attempts);
        var limit: nat := if setting < 1 then 1 else if setting > MOST then MOST else setting;
        var wait := repository.Reserve(limit, now);
        tries := tries + [Attempt(now, before)];
        attempts := attempts + 1;
        if wait <= 0.0 {
          AdmittedAs(before, setting, limit, now);
          return;
        }
        var next := now + wait + oversleep(attempts);
        RefusedAs(before, setting, limit, now, wait, oversleep(attempts));
        WaitExpiresOne(before, now, wait, next);
        now := next;
      }
    }
  }

  // ---- Whole runs --------------------------------------------------------------------------

  /** The table with its history: the clock at each admission, and the stamp stored for it. */
  datatype History = History(events: set<real>, clocks: seq<real>, stamps: seq<real>)

  datatype Call = Call(limit: nat, now: real)

  ghost function Serve(h: History, c: Call): History {
    var events := Reserved(h.events, c.limit, c.now);
    if Admits(h.events, c.limit, c.now)
      then History(events, h.clocks + [c.now], h.stamps + [Stamp(h.events, c.now)])
      else History(events, h.clocks, h.stamps)
  }

  ghost function Run(calls: seq<Call>): History
    decreases |calls|
  {
    if calls == [] then History({}, [], []) else Serve(Run(calls[..|calls| - 1]), calls[|calls| - 1])
  }

  ghost predicate Orderly(calls: seq<Call>, most: nat) {
    && (forall i :: 0 <= i < |calls| ==> 0 < calls[i].limit <= most)
    && (forall i, j :: 0 <= i < j < |calls| ==> calls[i].now <= calls[j].now)
  }

  /** Any `most + 1` consecutive admissions span the window. */
  ghost predicate Spaced(clocks: seq<real>, most: nat) {
    forall i :: most <= i < |clocks| ==> clocks[i] >= clocks[i - most] + WINDOW
  }

  ghost predicate Rising(clocks: seq<real>) {
    forall i, j :: 0 <= i < j < |clocks| ==> clocks[i] <= clocks[j]
  }

  ghost predicate Recorded(h: History, at: int, now: real)
    requires |h.stamps| == |h.clocks|
    requires 0 <= at < |h.clocks|
  {
    && h.clocks[at] <= h.stamps[at]
    && h.clocks[at] <= now
    && (h.stamps[at] in h.events || h.stamps[at] <= now - WINDOW)
  }

  /** Every admission is recorded under a stamp of its own until the window has passed. */
  ghost predicate Inv(h: History, most: nat, now: real) {
    && |h.stamps| == |h.clocks|
    && OrderedDict.Distinct(h.stamps)
    && (forall i :: 0 <= i < |h.clocks| ==> Recorded(h, i, now))
    && Rising(h.clocks)
    && Spaced(h.clocks, most)
  }

  lemma AdmittedSpaced(h: History, c: Call, most: nat, before: real)
    requires Inv(h, most, before) && before <= c.now && 0 < c.limit <= most
    requires Admits(h.events, c.limit, c.now) && most <= |h.clocks|
    ensures c.now >= h.clocks[|h.clocks| - most] + WINDOW
  {
    if c.now < h.clocks[|h.clocks| - most] + WINDOW {
      var recent := h.stamps[|h.stamps| - most..];
      OrderedDict.AsManyKeys(recent);
      var kept := Kept(h.events, c.now);
      forall t | t in recent
        ensures t in kept
      {
        var i :| 0 <= i < |recent| && recent[i] == t;
        var at := |h.stamps| - most + i;
        assert Recorded(h, at, before) && h.stamps[at] == t;
        assert h.clocks[|h.clocks| - most] <= h.clocks[at];
      }
      SubsetCardinality((set t | t in recent), kept);
      assert false;
    }
  }

  lemma ServeSafe(h: History, c: Call, most: nat, before: real)
    requires Inv(h, most, before) && before <= c.now && 0 < c.limit <= most
    ensures Inv(Serve(h, c), most, c.now)
  {
    hide Nudged;
    var s := Serve(h, c);
    forall i | 0 <= i < |h.clocks|
      ensures Recorded(s, i, c.now)
    {
      assert Recorded(h, i, before);
    }
    if Admits(h.events, c.limit, c.now) {
      var n := |h.clocks|;
      assert Recorded(s, n, c.now);
      forall i | 0 <= i < n
        ensures h.stamps[i] != Stamp(h.events, c.now) && h.clocks[i] <= c.now
      {
        assert Recorded(h, i, before);
        StampIsFresh(h.events, c.now, h.stamps[i]);
      }
      if most <= n {
        AdmittedSpaced(h, c, most, before);
      }
      forall i | most <= i < |s.clocks|
        ensures s.clocks[i] >= s.clocks[i - most] + WINDOW
      {
        if i < n {
          assert s.clocks[i] == h.clocks[i] && s.clocks[i - most] == h.clocks[i - most];
        }
      }
    }
  }

  /** A stamp differs from every stored one and from every expired one. */
  lemma StampIsFresh(events: set<real>, now: real, t: real)
    requires t in events || t <= now - WINDOW
    ensures Stamp(events, now) != t
  {
  }

  lemma {:induction false} RunSafe(calls: seq<Call>, most: nat)
    requires Orderly(calls, most) && calls != []
    ensures Inv(Run(calls), most, calls[|calls| - 1].now)
    decreases |calls|
  {
    var n := |calls| - 1;
    if n > 0 {
      RunSafe(calls[..n], most);
      ServeSafe(Run(calls[..n]), calls[n], most, calls[n - 1].now);
    } else {
      assert Inv(Run([]), most, calls[0].now);
      ServeSafe(Run([]), calls[0], most, calls[0].now);
    }
  }

  function AdmittedWithin(clocks: seq<real>, from: real): set<int> {
    set i | 0 <= i < |clocks| && from <= clocks[i] < from + 60.0
  }

  lemma {:induction false} IndexRange(low: int, count: nat) returns (indices: set<int>)
    ensures |indices| == count && forall i :: i in indices <==> low <= i < low + count
    decreases count
  {
    if count == 0 {
      indices := {};
    } else {
      var rest := IndexRange(low, count - 1);
      indices := rest + {low + count - 1};
    }
  }

  lemma NotFarBehind(clocks: seq<real>, most: nat, first: nat, i: nat)
    requires Spaced(clocks, most) && Rising(clocks) && first <= i < |clocks|
    ensures first + most <= i ==> clocks[i] >= clocks[first] + WINDOW
  {
    if first + most < i && most > 0 {
      assert clocks[i - most] >= clocks[first];
    }
  }

  lemma SpacedFewWithin(clocks: seq<real>, most: nat, from: real)
    requires Spaced(clocks, most) && Rising(clocks)
    ensures |AdmittedWithin(clocks, from)| <= most
  {
    var within := AdmittedWithin(clocks, from);
    if within != {} {
      var first := FirstOf(within);
      var range := IndexRange(first, most);
      forall i | i in within
        ensures i in range
      {
        NotFarBehind(clocks, most, first, i);
      }
      SubsetCardinality(within, range);
    }
  }

  lemma {:induction false} FirstOf(indices: set<int>) returns (first: int)
    requires indices != {}
    ensures first in indices && forall i :: i in indices ==> first <= i
    decreases |indices|
  {
    var any := Pick(indices);
    var others := indices - {any};
    first := any;
    if others != {} {
      var i := FirstOf(others);
      first := if i < any then i else any;
    }
    assert forall i :: i in indices ==> i == any || i in others;
  }

  /** Whatever the limits and times of the calls, every half-open window of sixty seconds of clock time holds
      at most as many admissions as the largest limit, though stamps may be nudged past their clock. */
  lemma RollingWindow(calls: seq<Call>, most: nat, from: real)
    requires Orderly(calls, most)
    ensures |AdmittedWithin(Run(calls).clocks, from)| <= most
  {
    if calls == [] {
      assert AdmittedWithin([], from) == {};
    } else {
      RunSafe(calls, most);
      SpacedFewWithin(Run(calls).clocks, most, from);
    }
  }

  // ---- Nobody waits without cause ----------------------------------------------------------

  ghost predicate NudgedAtMost(h: History, at: int, most: nat)
    requires |h.stamps| == |h.clocks|
    requires 0 <= at < |h.clocks|
  {
    h.stamps[at] <= h.clocks[at] + most as real * NUDGE
  }

  /** Only admissions fill the table, each stamped within `most` nudges of its clock. */
  ghost predicate Backed(h: History, most: nat) {
    && |h.stamps| == |h.clocks|
    && (forall t :: t in h.events ==> t in h.stamps)
    && (forall i :: 0 <= i < |h.clocks| ==> NudgedAtMost(h, i, most))
  }

  lemma StampNear(events: set<real>, limit: nat, now: real, most: nat)
    requires Admits(events, limit, now) && limit <= most
    ensures Stamp(events, now) <= now + most as real * NUDGE
  {
    var kept := Kept(events, now);
    NudgedLittle(kept, now);
    SubsetCardinality(Later(kept, now), kept);
  }

  lemma {:induction false} RunBacked(calls: seq<Call>, most: nat)
    requires Orderly(calls, most)
    ensures Backed(Run(calls), most)
    decreases |calls|
  {
    if calls != [] {
      var (before, c) := (Run(calls[..|calls| - 1]), calls[|calls| - 1]);
      RunBacked(calls[..|calls| - 1], most);
      if Admits(before.events, c.limit, c.now) {
        StampNear(before.events, c.limit, c.now, most);
      }
      forall i | 0 <= i < |before.clocks|
        ensures NudgedAtMost(Serve(before, c), i, most)
      {
        assert NudgedAtMost(before, i, most);
      }
    }
  }

  lemma {:induction false} ImageIsSmall(indices: set<int>, values: seq<real>)
    requires forall i :: i in indices ==> 0 <= i < |values|
    ensures |set i | i in indices :: values[i]| <= |indices|
    decreases |indices|
  {
    if indices != {} {
      var i := Pick(indices);
      ImageIsSmall(indices - {i}, values);
      assert (set j | j in indices :: values[j]) == (set j | j in indices - {i} :: values[j]) + {values[i]};
    }
  }

  /** The admissions no longer ago than the window and `most` nudges. */
  function Recent(clocks: seq<real>, now: real, most: nat): set<int> {
    set i | 0 <= i < |clocks| && clocks[i] > now - 60.0 - most as real * 0.000001
  }

  /** A request is made to wait only when as many requests as its limit were admitted in the last sixty
      seconds, give or take the nudges. */
  lemma DenialIsEarned(calls: seq<Call>, most: nat, limit: nat, now: real)
    requires Orderly(calls, most) && !Admits(Run(calls).events, limit, now)
    ensures |Recent(Run(calls).clocks, now, most)| >= limit
  {
    var h := Run(calls);
    RunBacked(calls, most);
    var (recent, kept) := (Recent(h.clocks, now, most), Kept(h.events, now));
    var image := set i | i in recent :: h.stamps[i];
    forall t | t in kept
      ensures t in image
    {
      var i :| 0 <= i < |h.stamps| && h.stamps[i] == t;
      assert NudgedAtMost(h, i, most);
      assert i in recent;
    }
    SubsetCardinality(kept, image);
    ImageIsSmall(recent, h.stamps);
  }
}
