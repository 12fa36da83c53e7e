/** The reference-counted pool of open archives (`ArchivePool` in `archives.py`). */
module ArchivePoolState {
  import opened Common
  import opened OrderedDict

  /** A cached archive: its file handle and how many callers hold it. */
  datatype Entry = Entry(handle: int, active: nat)

  type Entries = Dict<Key, Entry>

  // ---- Eviction ----------------------------------------------------------------------------

  /** The first entry, in order of last use, that nobody holds. */
  function FirstIdle(order: seq<Key>, entries: map<Key, Entry>): (k: Option<Key>)
    ensures k.Some? ==> k.value in order && k.value in entries && entries[k.value].active == 0
  {
    if order == [] then None
    else if order[0] in entries && entries[order[0]].active == 0 then Some(order[0])
    else FirstIdle(order[1..], entries)
  }

  lemma {:induction false} WithoutShorter(order: seq<Key>, k: Key)
    requires k in order
    ensures |Without(order, k)| == |order| - 1
  {
    if order[0] != k {
      WithoutShorter(order[1..], k);
    }
  }

  /** `_evict`: drop idle entries, the least recently used first, while there are too many. */
  function Evicted(d: Entries, capacity: nat): Entries
    decreases |d.order|
  {
    var idle := FirstIdle(d.order, d.entries);
    if |d.order| <= capacity || idle.None? then d
    else
      WithoutShorter(d.order, idle.value);
      Evicted(Remove(d, idle.value), capacity)
  }

  /** `a` was used before `b`. */
  ghost predicate Before(order: seq<Key>, a: Key, b: Key) {
    order != [] && ((order[0] == a && b in order[1..]) || Before(order[1..], a, b))
  }

  ghost predicate Idle(d: Entries, k: Key) {
    k in d.entries && d.entries[k].active == 0
  }

  lemma {:induction false} BeforeWithin(order: seq<Key>, a: Key, b: Key)
    requires Before(order, a, b)
    ensures a in order && b in order
  {
    if !(order[0] == a && b in order[1..]) {
      BeforeWithin(order[1..], a, b);
    }
  }

  lemma {:induction false} WithoutBefore(order: seq<Key>, k: Key, a: Key, b: Key)
    requires a != k && b != k && Distinct(order)
    ensures Before(Without(order, k), a, b) <==> Before(order, a, b)
  {
    if order != [] && order[0] != k {
      WithoutBefore(order[1..], k, a, b);
      assert Without(order, k)[1..] == Without(order[1..], k);
    }
  }

  lemma {:induction false} FirstIdleIsFirst(order: seq<Key>, entries: map<Key, Entry>, other: Key)
    requires Distinct(order) && FirstIdle(order, entries).Some?
    requires other in order && other != FirstIdle(order, entries).value
    requires other in entries && entries[other].active == 0
    ensures Before(order, FirstIdle(order, entries).value, other)
  {
    if FirstIdle(order, entries) != Some(order[0]) {
      FirstIdleIsFirst(order[1..], entries, other);
    }
  }

  lemma {:induction false} NoneIdle(order: seq<Key>, entries: map<Key, Entry>, k: Key)
    requires FirstIdle(order, entries).None? && k in order && k in entries
    ensures entries[k].active > 0
  {
    if order[0] != k {
      NoneIdle(order[1..], entries, k);
    }
  }

  /** Eviction drops idle entries only, changes none, and stops at the capacity or when all are held. */
  lemma {:induction false} EvictedKeeps(d: Entries, capacity: nat)
    requires Indexed(d)
    ensures var e := Evicted(d, capacity);
      && Indexed(e)
      && (forall k :: k in e.entries ==> k in d.entries && e.entries[k] == d.entries[k])
      && (forall k :: k in d.entries && d.entries[k].active > 0 ==> k in e.entries)
      && (|e.order| <= capacity || forall k :: k in e.entries ==> e.entries[k].active > 0)
      && (e == d || |e.order| >= capacity)
    decreases |d.order|
  {
    var idle := FirstIdle(d.order, d.entries);
    if |d.order| > capacity && idle.Some? {
      PutIndexed(d, idle.value, d.entries[idle.value]);
      WithoutShorter(d.order, idle.value);
      EvictedKeeps(Remove(d, idle.value), capacity);
      hide Indexed, FirstIdle, Distinct;
    } else if |d.order| > capacity {
      forall k | k in d.entries
        ensures d.entries[k].active > 0
      {
        NoneIdle(d.order, d.entries, k);
      }
    }
  }

  /** The evicted entries are the least recently used idle ones: each was used before every idle one kept. */
  lemma {:induction false} EvictsLeastRecent(d: Entries, capacity: nat, gone: Key, kept: Key)
    requires Indexed(d) && gone in d.entries && gone !in Evicted(d, capacity).entries
    requires Idle(Evicted(d, capacity), kept)
    ensures Idle(d, gone) && Before(d.order, gone, kept)
    decreases |d.order|
  {
    var idle := FirstIdle(d.order, d.entries);
    if |d.order| > capacity && idle.Some? {
      var k := idle.value;
      PutIndexed(d, k, d.entries[k]);
      WithoutShorter(d.order, k);
      EvictedKeeps(Remove(d, k), capacity);
      assert kept in d.entries && kept != k;
      if gone == k {
        FirstIdleIsFirst(d.order, d.entries, kept);
      } else {
        EvictsLeastRecent(Remove(d, k), capacity, gone, kept);
        WithoutBefore(d.order, k, gone, kept);
      }
    }
  }

  lemma {:induction false} EvictedOrder(d: Entries, capacity: nat, a: Key, b: Key)
    requires Indexed(d) && Before(Evicted(d, capacity).order, a, b)
    ensures Before(d.order, a, b)
    decreases |d.order|
  {
    var idle := FirstIdle(d.order, d.entries);
    if |d.order| > capacity && idle.Some? {
      var k := idle.value;
      PutIndexed(d, k, d.entries[k]);
      WithoutShorter(d.order, k);
      EvictedOrder(Remove(d, k), capacity, a, b);
      WithoutDistinct(d.order, k);
      BeforeWithin(Without(d.order, k), a, b);
      WithoutBefore(d.order, k, a, b);
    }
  }

  // ---- Acquiring and releasing -------------------------------------------------------------

  datatype Hold = Hold(key: Key, handle: int)

  /** The pool, the handles closed, the callers inside `acquire`, and when each key was last acquired. */
  datatype State = State(entries: Entries, closed: set<int>, next: int, holders: map<int, Hold>, usedAt: map<Key, nat>,
    clock: nat)

  datatype Step = Acquire(h: int, key: Key) | Release(h: int)

  /** The entry for a key with one more holder; the archive is opened if it is not cached. */
  function Held(d: Entries, key: Key, next: int): Entries {
    var e := if key in d.entries then d.entries[key] else Entry(next, 0);
    Put(d, key, e.(active := e.active + 1))
  }

  function LetGo(d: Entries, key: Key): Entries {
    if key in d.entries && d.entries[key].active > 0
      then Dict(d.order, d.entries[key := d.entries[key].(active := d.entries[key].active - 1)])
      else d
  }

  function ClosedBy(d: Entries, e: Entries): set<int> {
    set k | k in d.entries && k !in e.entries :: d.entries[k].handle
  }

  /** `_evict` on the pool as it is. */
  function Trimmed(s: State, capacity: nat): State {
    s.(entries := Evicted(s.entries, capacity), closed := s.closed + ClosedBy(s.entries, Evicted(s.entries, capacity)))
  }

  function Joined(s: State, h: int, key: Key): State {
    var held := Held(s.entries, key, s.next);
    State(held, s.closed, s.next + 1, s.holders[h := Hold(key, held.entries[key].handle)], s.usedAt[key := s.clock],
      s.clock + 1)
  }

  function Left(s: State, h: int): State
    requires h in s.holders
  {
    s.(entries := LetGo(s.entries, s.holders[h].key), holders := s.holders - {h})
  }

  function DoAcquire(s: State, h: int, key: Key, capacity: nat): State {
    if h in s.holders then s else Trimmed(Joined(s, h, key), capacity)
  }

  function DoRelease(s: State, h: int, capacity: nat): State {
    if h in s.holders then Trimmed(Left(s, h), capacity) else s
  }

  function Do(s: State, step: Step, capacity: nat): State {
    match step
    case Acquire(h, key) => DoAcquire(s, h, key, capacity)
    case Release(h) => DoRelease(s, h, capacity)
  }

  function Run(steps: seq<Step>, capacity: nat): State
    decreases |steps|
  {
    if steps == [] then State(Dict([], map[]), {}, 0, map[], map[], 0)
    else Do(Run(steps[..|steps| - 1], capacity), steps[|steps| - 1], capacity)
  }

  // ---- The invariant -----------------------------------------------------------------------

  function HoldersOf(holders: map<int, Hold>, key: Key): set<int> {
    set h | h in holders && holders[h].key == key
  }

  /** Handles are open, each one entry's own. */
  ghost predicate HandlesOk(entries: map<Key, Entry>, closed: set<int>, next: int) {
    && (forall k :: k in entries ==> entries[k].handle < next && entries[k].handle !in closed)
    && (forall i :: i in closed ==> i < next)
    && (forall j, k :: j in entries && k in entries && entries[j].handle == entries[k].handle ==> j == k)
  }

  /** Each entry counts its holders. */
  ghost predicate CountsOk(entries: map<Key, Entry>, holders: map<int, Hold>) {
    forall k :: k in entries ==> entries[k].active == |HoldersOf(holders, k)|
  }

  /** Each holder's archive is the one in the pool. */
  ghost predicate HoldersOk(entries: map<Key, Entry>, holders: map<int, Hold>) {
    forall h :: h in holders ==> holders[h].key in entries && entries[holders[h].key].handle == holders[h].handle
  }

  /** The entries stand in the order they were last acquired in. */
  ghost predicate OrderOk(order: seq<Key>, usedAt: map<Key, nat>, clock: nat) {
    && (forall k :: k in order ==> k in usedAt && usedAt[k] < clock)
    && (forall a, b :: Before(order, a, b) ==> a in usedAt && b in usedAt && usedAt[a] < usedAt[b])
  }

  /** No more entries than the capacity, unless all are held. */
  ghost predicate SizeOk(d: Entries, capacity: nat) {
    |d.order| <= capacity || forall k :: k in d.entries ==> d.entries[k].active > 0
  }

  /** All but the size, which eviction restores. */
  ghost predicate Loose(s: State) {
    && Indexed(s.entries)
    && HandlesOk(s.entries.entries, s.closed, s.next)
    && CountsOk(s.entries.entries, s.holders)
    && HoldersOk(s.entries.entries, s.holders)
    && OrderOk(s.entries.order, s.usedAt, s.clock)
  }

  ghost predicate Inv(s: State, capacity: nat) {
    Loose(s) && SizeOk(s.entries, capacity)
  }

  /** `e` is `d` with some entries nobody holds taken out. */
  ghost predicate Thinned(d: map<Key, Entry>, e: map<Key, Entry>) {
    && (forall k :: k in e ==> k in d && e[k] == d[k])
    && (forall k :: k in d && d[k].active > 0 ==> k in e)
  }

  lemma ThinnedHandles(d: Entries, e: Entries, closed: set<int>, next: int)
    requires Thinned(d.entries, e.entries) && HandlesOk(d.entries, closed, next)
    ensures HandlesOk(e.entries, closed + ClosedBy(d, e), next)
  {
  }

  lemma ThinnedHolders(d: map<Key, Entry>, e: map<Key, Entry>, holders: map<int, Hold>)
    requires Thinned(d, e) && CountsOk(d, holders) && HoldersOk(d, holders)
    ensures CountsOk(e, holders) && HoldersOk(e, holders)
  {
    forall h | h in holders
      ensures holders[h].key in e
    {
      assert h in HoldersOf(holders, holders[h].key);
      assert d[holders[h].key].active > 0;
    }
  }

  lemma EvictedOrderOk(d: Entries, capacity: nat, usedAt: map<Key, nat>, clock: nat)
    requires Indexed(d) && OrderOk(d.order, usedAt, clock)
    ensures OrderOk(Evicted(d, capacity).order, usedAt, clock)
  {
    var e := Evicted(d, capacity);
    EvictedKeeps(d, capacity);
    hide Evicted;
    forall k | k in e.order
      ensures k in d.order
    {
      assert k in e.entries;
    }
    forall a, b | Before(e.order, a, b)
      ensures Before(d.order, a, b)
    {
      EvictedOrder(d, capacity, a, b);
    }
    hide Before;
  }

  lemma TrimRestores(s: State, capacity: nat)
    requires Loose(s)
    ensures Inv(Trimmed(s, capacity), capacity)
  {
    var (d, e) := (s.entries, Evicted(s.entries, capacity));
    EvictedKeeps(d, capacity);
    hide Indexed, HandlesOk, CountsOk, HoldersOk, OrderOk, Evicted;
    ThinnedHandles(d, e, s.closed, s.next);
    ThinnedHolders(d.entries, e.entries, s.holders);
    EvictedOrderOk(d, capacity, s.usedAt, s.clock);
  }

  lemma {:induction false} BeforeAppend(order: seq<Key>, k: Key, a: Key, b: Key)
    ensures Before(order + [k], a, b) <==> Before(order, a, b) || (b == k && a in order)
  {
    if order != [] {
      assert (order + [k])[1..] == order[1..] + [k];
      BeforeAppend(order[1..], k, a, b);
    } else {
      assert ([] + [k])[1..] == [];
    }
  }

  lemma PutOrder(d: Entries, key: Key, usedAt: map<Key, nat>, clock: nat)
    requires Indexed(d) && OrderOk(d.order, usedAt, clock)
    ensures OrderOk(Without(d.order, key) + [key], usedAt[key := clock], clock + 1)
  {
    var rest := Without(d.order, key);
    WithoutDistinct(d.order, key);
    var now := usedAt[key := clock];
    forall a, b | Before(rest + [key], a, b)
      ensures a in now && b in now && now[a] < now[b]
    {
      BeforeAppend(rest, key, a, b);
      if Before(rest, a, b) {
        BeforeWithin(rest, a, b);
        WithoutBefore(d.order, key, a, b);
      }
    }
    hide Before;
  }

  lemma HeldHandles(d: Entries, closed: set<int>, key: Key, next: int)
    requires HandlesOk(d.entries, closed, next)
    ensures HandlesOk(Held(d, key, next).entries, closed, next + 1)
  {
  }

  lemma OneMoreHolder(entries: map<Key, Entry>, holders: map<int, Hold>, h: int, key: Key, next: int)
    requires CountsOk(entries, holders) && HoldersOk(entries, holders) && h !in holders
    ensures var e := if key in entries then entries[key] else Entry(next, 0);
      var more := holders[h := Hold(key, e.handle)];
      CountsOk(entries[key := e.(active := e.active + 1)], more)
      && HoldersOk(entries[key := e.(active := e.active + 1)], more)
  {
    var e := if key in entries then entries[key] else Entry(next, 0);
    var more := holders[h := Hold(key, e.handle)];
    forall k
      ensures HoldersOf(more, k) == if k == key then HoldersOf(holders, k) + {h} else HoldersOf(holders, k)
    {
    }
    if key !in entries {
      assert forall i :: i in holders ==> holders[i].key in entries;
      assert HoldersOf(holders, key) == {};
    }
  }

  lemma OneLessHolder(entries: map<Key, Entry>, holders: map<int, Hold>, h: int)
    requires CountsOk(entries, holders) && HoldersOk(entries, holders) && h in holders
    ensures var key := holders[h].key;
      && key in entries && entries[key].active > 0
      && CountsOk(entries[key := entries[key].(active := entries[key].active - 1)], holders - {h})
      && HoldersOk(entries[key := entries[key].(active := entries[key].active - 1)], holders - {h})
  {
    var key := holders[h].key;
    assert h in HoldersOf(holders, key);
    forall k
      ensures HoldersOf(holders - {h}, k) == if k == key then HoldersOf(holders, k) - {h} else HoldersOf(holders, k)
    {
    }
  }

  lemma HeldIndexed(d: Entries, key: Key, next: int)
    requires Indexed(d)
    ensures Indexed(Held(d, key, next)) && Held(d, key, next).order == Without(d.order, key) + [key]
    ensures var e := if key in d.entries then d.entries[key] else Entry(next, 0);
      Held(d, key, next).entries == d.entries[key := e.(active := e.active + 1)]
  {
    hide Indexed, Without;
    PutIndexed(d, key, Held(d, key, next).entries[key]);
  }

  lemma JoinedLoose(s: State, h: int, key: Key)
    requires Loose(s) && h !in s.holders
    ensures Loose(Joined(s, h, key))
  {
    HeldIndexed(s.entries, key, s.next);
    PutOrder(s.entries, key, s.usedAt, s.clock);
    HeldHandles(s.entries, s.closed, key, s.next);
    OneMoreHolder(s.entries.entries, s.holders, h, key, s.next);
    hide Indexed, OrderOk, CountsOk, HoldersOk, HandlesOk, Held, Without;
  }

  lemma LeftLoose(s: State, h: int)
    requires Loose(s) && h in s.holders
    ensures Loose(Left(s, h))
  {
    var left := LetGo(s.entries, s.holders[h].key);
    OneLessHolder(s.entries.entries, s.holders, h);
    assert Indexed(left);
    assert HandlesOk(left.entries, s.closed, s.next);
    hide Indexed, OrderOk, CountsOk, HoldersOk, HandlesOk;
  }

  lemma AcquireKeeps(s: State, h: int, key: Key, capacity: nat)
    requires Inv(s, capacity)
    ensures Inv(DoAcquire(s, h, key, capacity), capacity)
  {
    hide Loose, SizeOk, Trimmed, Joined;
    if h !in s.holders {
      JoinedLoose(s, h, key);
      TrimRestores(Joined(s, h, key), capacity);
    }
  }

  lemma ReleaseKeeps(s: State, h: int, capacity: nat)
    requires Inv(s, capacity)
    ensures Inv(DoRelease(s, h, capacity), capacity)
  {
    hide Loose, SizeOk, Trimmed, Left;
    if h in s.holders {
      LeftLoose(s, h);
      TrimRestores(Left(s, h), capacity);
    }
  }

  lemma {:induction false} RunKeeps(steps: seq<Step>, capacity: nat)
    ensures Inv(Run(steps, capacity), capacity)
    decreases |steps|
  {
    if steps != [] {
      var s := Run(steps[..|steps| - 1], capacity);
      RunKeeps(steps[..|steps| - 1], capacity);
      match steps[|steps| - 1]
      case Acquire(h, key) => AcquireKeeps(s, h, key, capacity);
      case Release(h) => ReleaseKeeps(s, h, capacity);
    }
  }

  /** However callers come and go, an archive somebody holds is in the pool and open, and the pool holds no more
      than its capacity or, if that is more, the archives held. */
  lemma HeldArchivesStayOpen(steps: seq<Step>, capacity: nat, h: int)
    requires capacity > 0 && h in Run(steps, capacity).holders
    ensures var s := Run(steps, capacity);
      && s.holders[h].handle !in s.closed
      && s.holders[h].key in s.entries.entries
      && s.entries.entries[s.holders[h].key].handle == s.holders[h].handle
      && s.entries.entries[s.holders[h].key].active > 0
  {
    RunKeeps(steps, capacity);
    var s := Run(steps, capacity);
    assert h in HoldersOf(s.holders, s.holders[h].key);
  }

  function HeldKeys(entries: map<Key, Entry>): set<Key> {
    set k | k in entries && entries[k].active > 0
  }

  lemma PoolIsBounded(steps: seq<Step>, capacity: nat)
    requires capacity > 0
    ensures var s := Run(steps, capacity);
      |s.entries.order| <= capacity || |s.entries.order| == |HeldKeys(s.entries.entries)|
  {
    RunKeeps(steps, capacity);
    var s := Run(steps, capacity);
    if |s.entries.order| > capacity {
      AsManyKeys(s.entries.order);
      assert HeldKeys(s.entries.entries) == set k | k in s.entries.order;
    }
  }

  /** The archive just acquired is never the one evicted, even by its own arrival. */
  lemma JustAcquiredStays(s: State, h: int, key: Key, capacity: nat)
    requires capacity > 0 && Inv(s, capacity) && h !in s.holders
    ensures key in DoAcquire(s, h, key, capacity).entries.entries
  {
    AcquireKeeps(s, h, key, capacity);
    assert h in DoAcquire(s, h, key, capacity).holders;
    hide DoAcquire;
  }

  /** Eviction closes what leaves, and what stays keeps its handle; `before` has the pool's handles but for one key that
      stays. */
  lemma EvictionHandles(before: Entries, d: Entries, capacity: nat, key: Key, k: Key, handle: int)
    requires Indexed(d)
    requires forall x :: x in before.entries ==> x in d.entries && d.entries[x].handle == before.entries[x].handle
    requires forall x :: x in d.entries ==> x in before.entries || x == key
    requires key in Evicted(d, capacity).entries || key in before.entries
    ensures var e := Evicted(d, capacity);
      && (k in before.entries && k in e.entries ==> e.entries[k].handle == before.entries[k].handle)
      && (handle in ClosedBy(d, e) <==> exists gone ::
        gone in before.entries && gone !in e.entries && handle == before.entries[gone].handle)
  {
    EvictedKeeps(d, capacity);
    hide Indexed, Evicted;
  }

  /** What one step does to the handles: a caller gets the pooled handle if there is one and a new one otherwise; an
      entry that stays keeps its handle; and what is closed is exactly what leaves the pool. */
  lemma HandlesExactly(s: State, step: Step, capacity: nat, k: Key, handle: int)
    requires capacity > 0 && Inv(s, capacity)
    ensures var after := Do(s, step, capacity);
      && (step.Acquire? && step.h !in s.holders ==>
        && step.h in after.holders
        && after.holders[step.h] ==
          Hold(step.key, if step.key in s.entries.entries then s.entries.entries[step.key].handle else s.next))
      && (k in s.entries.entries && k in after.entries.entries ==>
        after.entries.entries[k].handle == s.entries.entries[k].handle)
      && (handle in after.closed <==> handle in s.closed || (exists gone ::
        gone in s.entries.entries && gone !in after.entries.entries && handle == s.entries.entries[gone].handle))
  {
    match step
    case Acquire(h, key) =>
      if h !in s.holders {
        JustAcquiredStays(s, h, key, capacity);
        PutIndexed(s.entries, key, Held(s.entries, key, s.next).entries[key]);
        hide Inv, Evicted, Indexed, ClosedBy;
        EvictionHandles(s.entries, Held(s.entries, key, s.next), capacity, key, k, handle);
      }
    case Release(h) =>
      if h in s.holders {
        hide Evicted, ClosedBy;
        EvictionHandles(s.entries, LetGo(s.entries, s.holders[h].key), capacity, s.holders[h].key, k, handle);
      }
  }

  /** What a step evicts nobody holds, and was last acquired before every idle entry that stays. */
  lemma VictimIsLeastRecent(s: State, step: Step, capacity: nat, gone: Key, kept: Key)
    requires capacity > 0 && Inv(s, capacity)
    requires gone in s.entries.entries && gone !in Do(s, step, capacity).entries.entries
    requires Idle(Do(s, step, capacity).entries, kept)
    ensures HoldersOf(Do(s, step, capacity).holders, gone) == {}
    ensures var t := Do(s, step, capacity);
      gone in t.usedAt && kept in t.usedAt && t.usedAt[gone] < t.usedAt[kept]
  {
    match step
    case Acquire(h, key) =>
      if h !in s.holders {
        JoinedLoose(s, h, key);
        TrimmedVictim(Joined(s, h, key), capacity, gone, kept);
      }
    case Release(h) =>
      if h in s.holders {
        LeftLoose(s, h);
        TrimmedVictim(Left(s, h), capacity, gone, kept);
      }
  }

  lemma TrimmedVictim(s: State, capacity: nat, gone: Key, kept: Key)
    requires Loose(s) && gone in s.entries.entries && gone !in Trimmed(s, capacity).entries.entries
    requires Idle(Trimmed(s, capacity).entries, kept)
    ensures HoldersOf(s.holders, gone) == {}
    ensures gone in s.usedAt && kept in s.usedAt && s.usedAt[gone] < s.usedAt[kept]
  {
    EvictsLeastRecent(s.entries, capacity, gone, kept);
    assert |HoldersOf(s.holders, gone)| == 0;
  }
}

/** The pool as an object. */
module ArchivePoolObject {
  import opened Common
  import opened OrderedDict
  import opened ArchivePoolState

  /** `closed` are the handles closed so far, `issued` how many were ever opened. */
  class ArchivePool {
    const capacity: nat
    var entries: Entries
    var closed: set<int>
    var issued: int

    constructor (capacity: nat)
      ensures this.capacity == capacity && entries == Dict([], map[]) && closed == {} && issued == 0
    {
      this.capacity := capacity;
      entries, closed, issued := Dict([], map[]), {}, 0;
    }

    method FirstIdleKey() returns (k: Option<Key>)
      ensures k == FirstIdle(entries.order, entries.entries)
    {
      for i := 0 to |entries.order|
        invariant FirstIdle(entries.order[i..], entries.entries) == FirstIdle(entries.order, entries.entries)
      {
        var key := entries.order[i];
        assert entries.order[i..][1..] == entries.order[i + 1..];
        if key in entries.entries && entries.entries[key].active == 0 {
          return Some(key);
        }
      }
      return None;
    }

    method Evict()
      requires Indexed(entries)
      modifies this`entries, this`closed
      ensures entries == Evicted(old(entries), capacity)
      ensures closed == old(closed) + ClosedBy(old(entries), entries)
    {
      ghost var before := entries;
      EvictedKeeps(before, capacity);
      while |entries.order| > capacity
        invariant Indexed(entries) && Evicted(entries, capacity) == Evicted(before, capacity)
        invariant forall k :: k in entries.entries ==> k in before.entries && before.entries[k] == entries.entries[k]
        invariant closed == old(closed) + ClosedBy(before, entries)
        decreases |entries.order|
      {
        var removable := FirstIdleKey();
        if removable.None? {
          return;
        }
        var key := removable.value;
        WithoutShorter(entries.order, key);
        PutIndexed(entries, key, entries.entries[key]);
        OneMoreClosed(before, entries, key);
        hide Indexed, FirstIdle, ClosedBy;
        closed := closed + {entries.entries[key].handle};
        entries := Remove(entries, key);
      }
    }

    /** Entering the context: the archive handed out, with the pool settled. Without capacity there is no pool. */
    method Acquire(key: Key) returns (handle: int)
      requires Indexed(entries)
      modifies this
      ensures capacity == 0 ==> handle == old(issued) && entries == old(entries) && closed == old(closed)
      ensures capacity > 0 ==> var held := Held(old(entries), key, old(issued));
        && key in held.entries
        && handle == held.entries[key].handle
        && entries == Evicted(held, capacity)
        && closed == old(closed) + ClosedBy(held, entries)
      ensures issued == old(issued) + 1
    {
      if capacity == 0 {
        handle := issued;
        issued := issued + 1;
        return;
      }
      ghost var held := Held(entries, key, issued);
      HeldIndexed(entries, key, issued);
      var cached := Entry(issued, 0);
      if key in entries.entries {
        cached := entries.entries[key];
      }
      issued := issued + 1;
      entries := Put(entries, key, cached.(active := cached.active + 1));
      assert entries == held;
      hide Indexed, Held, Put, Evicted, ClosedBy;
      handle := cached.handle;
      Evict();
    }

    /** Leaving it. An archive opened without a pool is closed by whoever opened it. */
    method Release(key: Key, handle: int)
      requires Indexed(entries) && (capacity > 0 ==> key in entries.entries && entries.entries[key].active > 0)
      modifies this`entries, this`closed
      ensures capacity == 0 ==> entries == old(entries) && closed == old(closed) + {handle}
      ensures capacity > 0 ==> entries == Evicted(LetGo(old(entries), key), capacity)
      ensures capacity > 0 ==> closed == old(closed) + ClosedBy(LetGo(old(entries), key), entries)
    {
      if capacity == 0 {
        closed := closed + {handle};
        return;
      }
      var cached := entries.entries[key];
      entries := Dict(entries.order, entries.entries[key := cached.(active := cached.active - 1)]);
      assert Indexed(entries);
      Evict();
    }
  }

  lemma OneMoreClosed(before: Entries, d: Entries, key: Key)
    requires key in d.entries && forall k :: k in d.entries ==> k in before.entries && before.entries[k] == d.entries[k]
    ensures ClosedBy(before, Remove(d, key)) == ClosedBy(before, d) + {d.entries[key].handle}
  {
    var (a, b) := (ClosedBy(before, Remove(d, key)), ClosedBy(before, d));
    assert before.entries[key].handle in a;
    forall i | i in a
      ensures i in b + {d.entries[key].handle}
    {
      var k :| k in before.entries && k !in Remove(d, key).entries && before.entries[k].handle == i;
      assert k == key || k !in d.entries;
    }
    forall i | i in b
      ensures i in a
    {
      var k :| k in before.entries && k !in d.entries && before.entries[k].handle == i;
      assert k !in Remove(d, key).entries;
    }
  }
}
