/** The per-key token bucket of `admission.py`: bursts pass, sustained floods do not. Time is real and
    read by the caller; an ordered dictionary is its keys, oldest use first, beside the mapping. */
module RequestBudgets {
  import opened Common
  import opened OrderedDict

  datatype Bucket = Bucket(tokens: real, stamp: real)

  type Table = Dict<Key, Bucket>

  const EMPTY_TABLE: Table := Dict([], map[])

  datatype Policy = Policy(perMinute: nat, maxKeys: nat)

  datatype Call = Call(key: Key, now: real)

  function Capacity(p: Policy): real {
    p.perMinute as real
  }

  function Rate(p: Policy): (rate: real)
    ensures rate >= 0.0 && (p.perMinute >= 1 ==> rate > 0.0)
  {
    p.perMinute as real / 60.0
  }

  function Min(a: real, b: real): real {
    if a <= b then a else b
  }

  /** The tokens a bucket gains from one moment to another. */
  function Gain(p: Policy, from: real, to: real): real {
    (to - from) * Rate(p)
  }

  function Refilled(p: Policy, b: Bucket, now: real): real {
    Min(Capacity(p), b.tokens + Gain(p, b.stamp, now))
  }

  /** What a key could spend at time `now`. */
  function Level(p: Policy, t: Table, k: Key, now: real): real {
    if k in t.entries then Refilled(p, t.entries[k], now) else Capacity(p)
  }

  predicate Admits(p: Policy, t: Table, call: Call) {
    Level(p, t, call.key, call.now) >= 1.0
  }

  function Spend(p: Policy, t: Table, call: Call): Table {
    var level := Level(p, t, call.key, call.now);
    Put(t, call.key, Bucket(if level >= 1.0 then level - 1.0 else level, call.now))
  }

  function After(p: Policy, t: Table, call: Call): Table {
    Trim(Spend(p, t, call), p.maxKeys)
  }

  class RequestBudget {
    const policy: Policy
    var order: seq<Key>
    var buckets: map<Key, Bucket>

    ghost function View(): Table
      reads this
    {
      Dict(order, buckets)
    }

    constructor (policy: Policy)
      ensures this.policy == policy && View() == EMPTY_TABLE
    {
      this.policy := policy;
      order, buckets := [], map[];
    }

    /** Zero when the request is admitted, otherwise the seconds until one would be. */
    method Take(key: Key, now: real) returns (wait: real)
      requires policy.perMinute >= 1
      modifies this
      ensures View() == After(policy, old(View()), Call(key, now))
      ensures Admits(policy, old(View()), Call(key, now)) ==> wait == 0.0
      ensures !Admits(policy, old(View()), Call(key, now)) ==>
        wait > 0.0 && wait * Rate(policy) == 1.0 - Level(policy, old(View()), key, now)
    {
      var (tokens, stamp) := (Capacity(policy), now);
      if key in buckets {
        tokens, stamp := buckets[key].tokens, buckets[key].stamp;
      }
      order := Without(order, key);
      tokens := Min(Capacity(policy), tokens + (now - stamp) * Rate(policy));
      GainNothing(policy, now);
      assert tokens == Level(policy, old(View()), key, now);
      if tokens >= 1.0 {
        tokens := tokens - 1.0;
        wait := 0.0;
      } else {
        wait := (1.0 - tokens) / Rate(policy);
      }
      order, buckets := order + [key], buckets[key := Bucket(tokens, now)];
      while |order| > policy.maxKeys
        invariant Trim(View(), policy.maxKeys) == After(policy, old(View()), Call(key, now))
      {
        order, buckets := order[1..], buckets - {order[0]};
      }
    }
  }

  // ---- What one call does to a bucket ------------------------------------------------------

  /** A call rewrites its own key's bucket; any other bucket is kept as it is or evicted. */
  lemma BucketAfter(p: Policy, t: Table, call: Call, k: Key)
    requires k in After(p, t, call).entries
    ensures var level := Level(p, t, call.key, call.now);
      if k == call.key then
        After(p, t, call).entries[k] == Bucket(if level >= 1.0 then level - 1.0 else level, call.now)
      else k in t.entries && After(p, t, call).entries[k] == t.entries[k]
  {
    TrimKeeps(Spend(p, t, call), p.maxKeys, k);
  }

  lemma GainAdds(p: Policy, a: real, b: real, c: real)
    requires a <= b <= c
    ensures Gain(p, a, c) == Gain(p, a, b) + Gain(p, b, c)
    ensures Gain(p, a, b) >= 0.0
  {
  }

  lemma GainNothing(p: Policy, a: real)
    ensures Gain(p, a, a) == 0.0
  {
  }

  // ---- The bound ---------------------------------------------------------------------------

  /** Buckets as calls up to time `now` leave them. */
  ghost predicate Sound(p: Policy, t: Table, now: real) {
    forall k :: k in t.entries ==> t.entries[k].tokens >= 0.0 && t.entries[k].stamp <= now
  }

  ghost predicate Ordered(calls: seq<Call>, from: real, to: real) {
    from <= to && (calls != [] ==> from <= calls[0].now && Ordered(calls[1..], calls[0].now, to))
  }

  function AfterAll(p: Policy, t: Table, calls: seq<Call>): Table
    decreases |calls|
  {
    if calls == [] then t else AfterAll(p, After(p, t, calls[0]), calls[1..])
  }

  function Admitted(p: Policy, t: Table, calls: seq<Call>, k: Key): nat
    decreases |calls|
  {
    if calls == [] then 0
    else
      var here := if calls[0].key == k && Admits(p, t, calls[0]) then 1 else 0;
      here + Admitted(p, After(p, t, calls[0]), calls[1..], k)
  }

  /** No call of the run pushes the bucket of `k` out of the table. */
  ghost predicate Kept(p: Policy, t: Table, calls: seq<Call>, k: Key)
    decreases |calls|
  {
    calls != [] ==>
      var r := After(p, t, calls[0]);
      (k in t.entries || calls[0].key == k ==> k in r.entries) && Kept(p, r, calls[1..], k)
  }

  lemma SoundAfter(p: Policy, t: Table, call: Call, before: real)
    requires Sound(p, t, before) && before <= call.now
    ensures Sound(p, After(p, t, call), call.now)
  {
    forall k | k in After(p, t, call).entries
      ensures After(p, t, call).entries[k].tokens >= 0.0 && After(p, t, call).entries[k].stamp <= call.now
    {
      BucketAfter(p, t, call, k);
      LevelGrows(p, t, call.key, before, call.now);
    }
  }

  lemma CapacityPositive(p: Policy)
    ensures Capacity(p) >= 0.0
  {
  }

  lemma LevelGrows(p: Policy, t: Table, k: Key, early: real, late: real)
    requires Sound(p, t, early) && early <= late
    ensures 0.0 <= Level(p, t, k, early) <= Capacity(p)
    ensures 0.0 <= Level(p, t, k, late) <= Level(p, t, k, early) + Gain(p, early, late)
  {
    hide Gain, Capacity;
    assert Capacity(p) >= 0.0 by { CapacityPositive(p); }
    if k in t.entries {
      GainAdds(p, t.entries[k].stamp, early, late);
    }
    GainAdds(p, early, late, late);
  }

  /** A call of `k` costs its bucket exactly what it admits, and other calls cost it nothing. */
  lemma LevelFalls(p: Policy, t: Table, call: Call, k: Key, before: real)
    requires Sound(p, t, before) && before <= call.now
    requires k in t.entries || call.key == k ==> k in After(p, t, call).entries
    ensures Level(p, After(p, t, call), k, call.now) ==
      Level(p, t, k, call.now) - if call.key == k && Admits(p, t, call) then 1.0 else 0.0
  {
    LevelGrows(p, t, k, before, call.now);
    hide Gain, Capacity;
    GainNothing(p, call.now);
    if k in After(p, t, call).entries {
      BucketAfter(p, t, call, k);
    }
  }

  lemma {:induction false} SpentWithinLevel(p: Policy, t: Table, calls: seq<Call>, k: Key, from: real, to: real)
    requires Sound(p, t, from) && Ordered(calls, from, to) && Kept(p, t, calls, k)
    ensures Admitted(p, t, calls, k) as real <= Level(p, t, k, from) + Gain(p, from, to)
    decreases |calls|
  {
    hide Gain, Level, After, Sound;
    LevelGrows(p, t, k, from, from);
    if calls == [] {
      GainAdds(p, from, to, to);
    } else {
      var (call, now) := (calls[0], calls[0].now);
      OrderedEnds(calls[1..], now, to);
      SoundAfter(p, t, call, from);
      LevelGrows(p, t, k, from, now);
      LevelFalls(p, t, call, k, from);
      SpentWithinLevel(p, After(p, t, call), calls[1..], k, now, to);
      GainAdds(p, from, now, to);
    }
  }

  lemma OrderedEnds(calls: seq<Call>, from: real, to: real)
    requires Ordered(calls, from, to)
    ensures from <= to
  {
  }

  lemma {:induction false} AllSound(p: Policy, t: Table, calls: seq<Call>, from: real, to: real)
    requires Sound(p, t, from) && Ordered(calls, from, to)
    ensures Sound(p, AfterAll(p, t, calls), to)
    decreases |calls|
  {
    if calls != [] {
      SoundAfter(p, t, calls[0], from);
      AllSound(p, After(p, t, calls[0]), calls[1..], calls[0].now, to);
    }
  }

  /** In any stretch of time, after any earlier calls, a key whose bucket stays in the table is admitted at
      most its burst plus the refill of the stretch. */
  lemma FloodBounded(p: Policy, earlier: seq<Call>, calls: seq<Call>, k: Key, start: real, from: real, to: real)
    requires Ordered(earlier, start, from) && Ordered(calls, from, to)
    requires Kept(p, AfterAll(p, EMPTY_TABLE, earlier), calls, k)
    ensures Admitted(p, AfterAll(p, EMPTY_TABLE, earlier), calls, k) as real <=
      p.perMinute as real + (to - from) * p.perMinute as real / 60.0
  {
    assert Gain(p, from, to) == (to - from) * p.perMinute as real / 60.0;
    AllSound(p, EMPTY_TABLE, earlier, start, from);
    hide Gain, AfterAll, Kept, Ordered, Admitted, Level, Sound;
    var t := AfterAll(p, EMPTY_TABLE, earlier);
    SpentWithinLevel(p, t, calls, k, from, to);
    LevelGrows(p, t, k, from, from);
  }

  /** A key's calls in a run. */
  function CallsOf(calls: seq<Call>, k: Key): nat {
    if calls == [] then 0 else CallsOf(calls[1..], k) + if calls[0].key == k then 1 else 0
  }

  lemma {:induction false} EnoughLeft(p: Policy, t: Table, calls: seq<Call>, k: Key, from: real, to: real)
    requires Sound(p, t, from) && Ordered(calls, from, to) && Kept(p, t, calls, k)
    requires CallsOf(calls, k) as real <= Level(p, t, k, from)
    ensures Admitted(p, t, calls, k) == CallsOf(calls, k)
    decreases |calls|
  {
    if calls != [] {
      var (call, now) := (calls[0], calls[0].now);
      LevelRises(p, t, k, from, now);
      SoundAfter(p, t, call, from);
      LevelFalls(p, t, call, k, from);
      hide Level, After, Sound;
      EnoughLeft(p, After(p, t, call), calls[1..], k, now, to);
    }
  }

  lemma LevelRises(p: Policy, t: Table, k: Key, early: real, late: real)
    requires Sound(p, t, early) && early <= late
    ensures Level(p, t, k, early) <= Level(p, t, k, late)
  {
    hide Gain, Capacity;
    if k in t.entries {
      GainAdds(p, t.entries[k].stamp, early, late);
      GainAdds(p, early, late, late);
    }
  }

  /** A burst passes: a key the table does not know has its first `perMinute` requests admitted, however fast. */
  lemma BurstAdmitted(p: Policy, t: Table, calls: seq<Call>, k: Key, from: real, to: real)
    requires Sound(p, t, from) && k !in t.entries && Ordered(calls, from, to) && Kept(p, t, calls, k)
    requires CallsOf(calls, k) <= p.perMinute
    ensures Admitted(p, t, calls, k) == CallsOf(calls, k)
  {
    EnoughLeft(p, t, calls, k, from, to);
  }

  /** Between its own calls a key regains a sixtieth of `perMinute` each second, up to `perMinute`; a call costs one
      whole token or nothing. */
  lemma RefillExactly(p: Policy, t: Table, call: Call, later: real, level: real)
    requires p.maxKeys >= 1 && Indexed(t) && call.now <= later && level == Level(p, t, call.key, call.now)
    ensures var left := if level >= 1.0 then level - 1.0 else level;
      var grown := left + (later - call.now) * p.perMinute as real / 60.0;
      Level(p, After(p, t, call), call.key, later) == if grown < p.perMinute as real then grown else p.perMinute as real
  {
    AfterIndexed(p, t, call);
    BucketAfter(p, t, call, call.key);
    hide After, Indexed;
    assert Gain(p, call.now, later) == (later - call.now) * p.perMinute as real / 60.0;
  }

  // ---- Eviction ----------------------------------------------------------------------------

  lemma AfterIndexed(p: Policy, t: Table, call: Call)
    requires Indexed(t)
    ensures Indexed(Spend(p, t, call)) && Indexed(After(p, t, call))
    ensures p.maxKeys > 0 ==> call.key in After(p, t, call).entries
  {
    PutIndexed(t, call.key, Spend(p, t, call).entries[call.key]);
    TrimIndexed(Spend(p, t, call), p.maxKeys);
  }

  ghost function Callers(calls: seq<Call>): set<Key> {
    set c | c in calls :: c.key
  }

  /** Nothing is evicted while no more keys call than the table has room for. */
  lemma {:induction false} FewKeysKept(p: Policy, t: Table, calls: seq<Call>, k: Key)
    requires Indexed(t) && |t.entries.Keys + Callers(calls)| <= p.maxKeys
    ensures Kept(p, t, calls, k)
    decreases |calls|
  {
    if calls != [] {
      var (call, spent) := (calls[0], Spend(p, t, calls[0]));
      AfterIndexed(p, t, call);
      assert call in calls;
      AsManyKeys(spent.order);
      assert (set x | x in spent.order) == spent.entries.Keys;
      SubsetCardinality(spent.entries.Keys, t.entries.Keys + Callers(calls));
      TrimKeeps(spent, p.maxKeys, k);
      assert forall c :: c in calls[1..] ==> c in calls;
      SubsetCardinality(spent.entries.Keys + Callers(calls[1..]), t.entries.Keys + Callers(calls));
      FewKeysKept(p, spent, calls[1..], k);
    }
  }

  // ---- Retrying ----------------------------------------------------------------------------

  /** A bucket that is short of a token at `from` has one again from `from + wait` on, and not before. */
  lemma RefilledInTime(p: Policy, b: Bucket, from: real, wait: real, later: real)
    requires p.perMinute >= 1 && b.stamp == from <= later && wait * Rate(p) == 1.0 - b.tokens
    ensures Refilled(p, b, later) >= 1.0 <==> later - from >= wait
  {
    var (rate, gain) := (Rate(p), Gain(p, from, later));
    assert Capacity(p) >= 1.0;
    assert gain >= wait * rate <==> later - from >= wait by {
      Compare(later - from, wait, rate);
    }
    hide Gain, Rate, Capacity;
    assert Refilled(p, b, later) == Min(Capacity(p), b.tokens + gain);
  }

  /** The advertised wait is exact: retrying with no call in between succeeds from then on, and not before. */
  lemma WaitIsExact(p: Policy, t: Table, call: Call, wait: real, later: real)
    requires p.perMinute >= 1 && p.maxKeys >= 1 && Indexed(t) && call.now <= later
    requires !Admits(p, t, call) && wait * Rate(p) == 1.0 - Level(p, t, call.key, call.now)
    ensures Admits(p, After(p, t, call), Call(call.key, later)) <==> later - call.now >= wait
  {
    AfterIndexed(p, t, call);
    BucketAfter(p, t, call, call.key);
    hide After, Rate, Refilled, Indexed;
    RefilledInTime(p, After(p, t, call).entries[call.key], call.now, wait, later);
  }

  lemma Compare(a: real, b: real, rate: real)
    requires rate > 0.0
    ensures a * rate >= b * rate <==> a >= b
  {
  }
}
