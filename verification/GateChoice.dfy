/** Whom the gate picks, written out: the dispatch loop is exactly a chain of fair grants that goes on until
    nobody can be admitted. */
module GateChoice {
  import opened Common
  import opened GateState
  import opened GateSafety

  /** One more slot is allowed to the key. */
  predicate Eligible(lim: Limits, s: State, k: Key) {
    lim.perKey.None? || (if k in s.held then s.held[k] else 0) < lim.perKey.value
  }

  /** Of two waiting keys the one that holds fewer slots comes first; then the one served longer ago, or never;
      then the one whose lane was opened first. */
  predicate Precedes(s: State, i: nat, j: nat)
    requires i < |s.waiting| && j < |s.waiting|
  {
    var (a, b) := (s.waiting[i].key, s.waiting[j].key);
    var (ha, hb) := (if a in s.held then s.held[a] else 0, if b in s.held then s.held[b] else 0);
    var la := if a in s.lastServed then s.lastServed[a] else 0;
    var lb := if b in s.lastServed then s.lastServed[b] else 0;
    ha < hb || (ha == hb && (la < lb || (la == lb && i <= j)))
  }

  /** Lane `i` may be served, and comes before every other lane that may. */
  ghost predicate Chosen(lim: Limits, s: State, i: nat) {
    && i < |s.waiting|
    && Eligible(lim, s, s.waiting[i].key)
    && forall j :: 0 <= j < |s.waiting| && Eligible(lim, s, s.waiting[j].key) ==> Precedes(s, i, j)
  }

  /** The first future of lane `i` is taken off, and granted unless it was cancelled. */
  ghost predicate Serves(s: State, r: State, i: nat)
    requires i < |s.waiting| && s.waiting[i].queue != []
  {
    var (k, t, rest) := (s.waiting[i].key, s.waiting[i].queue[0], s.waiting[i].queue[1..]);
    && r.waiting == (if rest == [] then s.waiting[..i] + s.waiting[i + 1..] else s.waiting[i := Lane(k, rest)])
    && r.born == s.born
    && if t in s.waiters && s.waiters[t].status.Pending? then
         && r.inUse == s.inUse + 1
         && r.held == s.held[k := 1 + if k in s.held then s.held[k] else 0]
         && r.turn == s.turn + 1
         && r.lastServed == s.lastServed[k := r.turn]
         && r.waiters == s.waiters[t := Waiter(k, Granted(r.turn))]
       else
         && r.inUse == s.inUse && r.held == s.held && r.turn == s.turn
         && r.lastServed == s.lastServed && r.waiters == s.waiters
  }

  ghost predicate FairGrant(lim: Limits, s: State, r: State) {
    && s.inUse < lim.capacity
    && exists i: nat :: Chosen(lim, s, i) && s.waiting[i].queue != [] && Serves(s, r, i)
  }

  /** The gate is full, or everybody who waits holds all it may. */
  ghost predicate Done(lim: Limits, s: State) {
    s.inUse >= lim.capacity || forall i :: 0 <= i < |s.waiting| ==> !Eligible(lim, s, s.waiting[i].key)
  }

  /** `n` fair grants lead from `s` to `d`, where there is nothing left to grant. */
  ghost predicate FairlyReaches(lim: Limits, s: State, d: State, n: nat)
    decreases n
  {
    if n == 0 then d == s && Done(lim, s)
    else exists r :: FairGrant(lim, s, r) && FairlyReaches(lim, r, d, n - 1)
  }

  lemma ChosenIsBest(lim: Limits, s: State, i: nat)
    ensures Chosen(lim, s, i) <==> Best(lim, s, |s.waiting|) == Some(i)
  {
    var best := Best(lim, s, |s.waiting|);
    if Chosen(lim, s, i) && best.Some? && best.value < |s.waiting| {
      assert MayHold(lim, s, s.waiting[i].key) && Precedes(s, i, best.value);
    }
  }

  lemma BestIsChosen(lim: Limits, s: State)
    ensures var best := Best(lim, s, |s.waiting|);
      && (best.None? <==> forall i :: 0 <= i < |s.waiting| ==> !Eligible(lim, s, s.waiting[i].key))
      && (best.Some? ==> Chosen(lim, s, best.value))
  {
    var best := Best(lim, s, |s.waiting|);
    if best.Some? {
      ChosenIsBest(lim, s, best.value);
    }
    hide Best, Chosen;
    assert forall k :: Eligible(lim, s, k) <==> MayHold(lim, s, k);
  }

  lemma ServesIsGrant(s: State, r: State, i: nat)
    requires Lanes(s) && i < |s.waiting|
    ensures s.waiting[i].queue != []
    ensures Serves(s, r, i) <==> r == Grant(s, i)
  {
    assert LaneOk(s.waiters, s.waiting[i]);
  }

  lemma FairIsBest(lim: Limits, s: State, r: State)
    requires Lanes(s) && FairGrant(lim, s, r)
    ensures Lanes(r) && Backlog(r.waiting) < Backlog(s.waiting) && Dispatch(lim, s) == Dispatch(lim, r)
  {
    var i: nat :| Chosen(lim, s, i) && s.waiting[i].queue != [] && Serves(s, r, i);
    ChosenIsBest(lim, s, i);
    ServesIsGrant(s, r, i);
    GrantKeepsLanes(s, i);
    hide Chosen, Serves, Grant, LanesOk, Best, Backlog;
  }

  lemma BestIsFair(lim: Limits, s: State)
    requires Lanes(s)
    ensures Done(lim, s) ==> Dispatch(lim, s) == s
    ensures !Done(lim, s) ==> exists r :: FairGrant(lim, s, r)
  {
    var best := Best(lim, s, |s.waiting|);
    if best.Some? {
      ChosenIsBest(lim, s, best.value);
      ServesIsGrant(s, Grant(s, best.value), best.value);
    }
    hide Grant, Chosen, Serves, LanesOk;
    if !Done(lim, s) {
      assert best.Some? && FairGrant(lim, s, Grant(s, best.value));
    }
  }

  lemma {:induction false} ReachesDispatch(lim: Limits, s: State, d: State, n: nat)
    requires Lanes(s) && FairlyReaches(lim, s, d, n)
    ensures d == Dispatch(lim, s)
    decreases n
  {
    hide FairGrant, Done, LanesOk, Dispatch, Backlog;
    if n > 0 {
      var r :| FairGrant(lim, s, r) && FairlyReaches(lim, r, d, n - 1);
      FairIsBest(lim, s, r);
      ReachesDispatch(lim, r, d, n - 1);
    } else {
      BestIsFair(lim, s);
    }
  }

  lemma {:induction false} DispatchReached(lim: Limits, s: State) returns (n: nat)
    requires Lanes(s)
    ensures FairlyReaches(lim, s, Dispatch(lim, s), n)
    decreases Backlog(s.waiting)
  {
    hide FairGrant, Done, LanesOk, Dispatch, Backlog;
    BestIsFair(lim, s);
    if Done(lim, s) {
      n := 0;
    } else {
      var r :| FairGrant(lim, s, r);
      FairIsBest(lim, s, r);
      var rest := DispatchReached(lim, r);
      n := rest + 1;
    }
  }

  /** Dispatching is serving, as long as there is a free slot and somebody who may have it, the waiting key that holds
      the fewest slots, among those the one served longest ago, among those the first in line; and nothing else. */
  lemma DispatchIsFair(lim: Limits, s: State, d: State)
    requires Lanes(s)
    ensures d == Dispatch(lim, s) <==> exists n: nat :: FairlyReaches(lim, s, d, n)
  {
    hide FairlyReaches, Dispatch;
    var n := DispatchReached(lim, s);
    if m: nat :| FairlyReaches(lim, s, d, m) {
      ReachesDispatch(lim, s, d, m);
    }
  }

  /** A request is turned away exactly when its key's queue already has `queuePerKey` futures, and then nothing
      changes; otherwise it is let in. */
  lemma RefusedExactly(lim: Limits, s: State, k: Key)
    requires Inv(lim, s) && lim.queuePerKey >= 1
    ensures Holds(s)
    ensures Next(lim, s, Acquire(k)) == s <==>
      exists i :: 0 <= i < |s.waiting| && s.waiting[i].key == k && |s.waiting[i].queue| == lim.queuePerKey
    ensures Next(lim, s, Acquire(k)) != s ==> Next(lim, s, Acquire(k)).born == s.born + 1
  {
    BalancedHolds(s);
    var f := Find(s.waiting, k);
    if Full(lim, s, k) {
      assert |s.waiting[f].queue| == lim.queuePerKey;
    } else {
      EnqueueKeepsLanes(s, k);
      SameBorn(lim, Enqueue(s, k));
      forall i | 0 <= i < |s.waiting| && s.waiting[i].key == k ensures |s.waiting[i].queue| < lim.queuePerKey {
        FindIs(s.waiting, i);
      }
    }
  }

  lemma {:induction false} SameBorn(lim: Limits, s: State)
    requires Lanes(s)
    ensures Dispatch(lim, s).born == s.born
    decreases Backlog(s.waiting)
  {
    var best := Best(lim, s, |s.waiting|);
    if s.inUse < lim.capacity && best.Some? {
      GrantKeepsLanes(s, best.value);
      SameBorn(lim, Grant(s, best.value));
    }
  }
}
