/** The sweep of the session pool: what it removes undisturbed, and what it cannot miss whatever else happens. */
module AnytlsSweep {
  import opened AnytlsPool
  import opened AnytlsAccounting
  import opened AnytlsLimits

  /** A session the sweep is to remove: closed, or idle for more than the timeout. */
  predicate Doomed(c: Config, x: Session, now: nat) {
    x.closed || (x.active == 0 && now > x.lastUsed + c.idleTimeout)
  }

  function Sift(pool: seq<nat>, gone: set<nat>): (r: seq<nat>) {
    if pool == [] then [] else (if pool[0] in gone then [] else [pool[0]]) + Sift(pool[1..], gone)
  }

  /** The places of a pool whose sessions stay, in order. */
  function Spared(c: Config, s: State, now: nat, pool: seq<nat>): (r: seq<nat>)
    requires AllSessions(s, pool)
  {
    if pool == [] then []
    else (if Doomed(c, s.sessions[pool[0]], now) then [] else [pool[0]]) + Spared(c, s, now, pool[1..])
  }

  /** Those of the first `k` sessions of the pool that are to be removed. */
  function Gone(c: Config, s: State, now: nat, k: nat): (r: set<nat>)
    requires PoolValid(s) && k <= |s.pool|
  {
    set i | i in s.pool[..k] && i < |s.sessions| && Doomed(c, s.sessions[i], now)
  }

  // Undisturbed

  predicate SweepAction(a: Action) {
    a.SweepLook? || a.SweepCount? || a.SweepDate? || a.SweepExpire? || a.Unlock?
  }

  /** `t` is the sweep of `s` once it has dealt with the first `k` sessions. */
  ghost predicate SweptTo(c: Config, s: State, now: nat, t: State, k: nat) {
    && PoolValid(s) && k <= |s.pool| && |t.sessions| == |s.sessions|
    && var gone := Gone(c, s, now, k);
       && t.pool == Sift(s.pool, gone)
       && forall i :: 0 <= i < |s.sessions| ==>
            t.sessions[i] == if i in gone then s.sessions[i].(closed := true) else s.sessions[i]
  }

  /** What a sweep in progress knows. */
  ghost predicate Sweeps(c: Config, s: State, now: nat, t: State) {
    match t.lock
    case Sweeping(todo, began, found) =>
      && began == now && |todo| <= |s.pool|
      && var k := |s.pool| - |todo|;
         && todo == s.pool[k..] && SweptTo(c, s, now, t, k)
         && (found != Unseen ==> todo != [] && !t.sessions[todo[0]].closed)
         && (found == SeenIdle ==> t.sessions[todo[0]].active == 0)
    case Expiring(victim, later, began) =>
      && began == now && |later| < |s.pool|
      && var k := |s.pool| - |later| - 1;
         && victim == s.pool[k] && later == s.pool[k + 1..] && SweptTo(c, s, now, t, k)
         && !t.sessions[victim].closed && t.sessions[victim].active == 0 && now > t.sessions[victim].lastUsed + c.idleTimeout
    case Free => SweptTo(c, s, now, t, |s.pool|)
    case _ => false
  }

  lemma {:induction false} SiftMore(pool: seq<nat>, gone: set<nat>, i: nat)
    ensures Without(Sift(pool, gone), i) == Sift(pool, gone + {i})
  {
    if pool != [] {
      SiftMore(pool[1..], gone, i);
      var rest := Sift(pool[1..], gone);
      assert ([pool[0]] + rest)[1..] == rest && [] + rest == rest;
    }
  }

  lemma {:induction false} SiftNothing(pool: seq<nat>)
    ensures Sift(pool, {}) == pool
  {
    if pool != [] {
      SiftNothing(pool[1..]);
      assert [pool[0]] + pool[1..] == pool;
    }
  }

  lemma GoneNext(c: Config, s: State, now: nat, k: nat)
    requires PoolValid(s) && k < |s.pool|
    ensures s.pool[k] < |s.sessions|
    ensures Gone(c, s, now, k + 1) == Gone(c, s, now, k) + if Doomed(c, s.sessions[s.pool[k]], now) then {s.pool[k]} else {}
  {
    assert InPool(s, k);
    assert s.pool[..k + 1] == s.pool[..k] + [s.pool[k]];
  }

  /** A session that the sweep spares. */
  lemma SparesOne(c: Config, s: State, now: nat, t: State, k: nat)
    requires SweptTo(c, s, now, t, k) && k < |s.pool| && !Doomed(c, s.sessions[s.pool[k]], now)
    ensures SweptTo(c, s, now, t, k + 1)
  {
    GoneNext(c, s, now, k);
    hide Gone, Sift;
    assert Gone(c, s, now, k) + {} == Gone(c, s, now, k);
  }

  /** A session that the sweep removes, closing it if it was open. */
  lemma RemovesOne(c: Config, s: State, now: nat, t: State, k: nat, u: State)
    requires SweptTo(c, s, now, t, k) && k < |s.pool| && Doomed(c, s.sessions[s.pool[k]], now)
    requires u.pool == Without(t.pool, s.pool[k]) && u.sessions == t.sessions[s.pool[k] := t.sessions[s.pool[k]].(closed := true)]
    ensures SweptTo(c, s, now, u, k + 1)
  {
    GoneNext(c, s, now, k);
    SiftMore(s.pool, Gone(c, s, now, k), s.pool[k]);
    hide Gone, Sift, Without;
  }

  lemma SameSession(c: Config, s: State, now: nat, t: State, k: nat)
    requires SweptTo(c, s, now, t, k) && k < |s.pool|
    ensures s.pool[k] < |s.sessions|
    ensures var x, y := s.sessions[s.pool[k]], t.sessions[s.pool[k]];
            && y.active == x.active && y.lastUsed == x.lastUsed
            && (y.closed ==> Doomed(c, x, now)) && (!y.closed ==> !x.closed)
  {
    assert InPool(s, k);
    hide Sift;
  }

  lemma LookSweeps(c: Config, s: State, now: nat, t: State)
    requires Sweeps(c, s, now, t) && (SweepsAt(t, Unseen) || SweepsAt(t, SeenOpen) || SweepsAt(t, SeenIdle))
    ensures Sweeps(c, s, now, SweepStep(c, t))
  {
    hide SweptTo;
    var k := |s.pool| - |t.lock.todo|;
    var i, u := s.pool[k], SweepStep(c, t);
    SameSession(c, s, now, t, k);
    assert s.pool[k..][1..] == s.pool[k + 1..];
    if u.pool != t.pool || (t.lock.found == Unseen && t.sessions[i].closed) {
      assert t.sessions[i := t.sessions[i].(closed := true)] == t.sessions;
      RemovesOne(c, s, now, t, k, u);
    } else if u.lock.Sweeping? && |u.lock.todo| < |t.lock.todo| {
      SparesOne(c, s, now, t, k);
      LockIrrelevant(c, s, now, t, k + 1, u);
    } else {
      LockIrrelevant(c, s, now, t, k, u);
    }
  }

  lemma LockIrrelevant(c: Config, s: State, now: nat, t: State, k: nat, u: State)
    requires SweptTo(c, s, now, t, k) && u.sessions == t.sessions && u.pool == t.pool
    ensures SweptTo(c, s, now, u, k)
  {}

  lemma ExpireSweeps(c: Config, s: State, now: nat, t: State)
    requires Sweeps(c, s, now, t) && t.lock.Expiring? && t.lock.victim < |t.sessions|
    ensures Sweeps(c, s, now, Step(c, t, SweepExpire))
  {
    hide SweptTo;
    var k := |s.pool| - |t.lock.later| - 1;
    SameSession(c, s, now, t, k);
    RemovesOne(c, s, now, t, k, Step(c, t, SweepExpire));
  }

  lemma StepSweeps(c: Config, s: State, now: nat, t: State, a: Action)
    requires Sweeps(c, s, now, t) && Enabled(c, t, a) && SweepAction(a)
    ensures Sweeps(c, s, now, Step(c, t, a))
  {
    hide SweptTo, SweepStep;
    if a.Unlock? {
      LockIrrelevant(c, s, now, t, |s.pool|, Step(c, t, a));
    } else if a.SweepExpire? {
      ExpireSweeps(c, s, now, t);
    } else {
      LookSweeps(c, s, now, t);
    }
  }

  lemma {:induction false} RunSweeps(c: Config, s: State, now: nat, t: State, actions: seq<Action>)
    requires Sweeps(c, s, now, t) && Possible(c, t, actions) && forall k :: 0 <= k < |actions| ==> SweepAction(actions[k])
    ensures Sweeps(c, s, now, After(c, t, actions))
    decreases |actions|
  {
    hide Sweeps, Step, Enabled;
    if actions != [] {
      StepSweeps(c, s, now, t, actions[0]);
      RunSweeps(c, s, now, Step(c, t, actions[0]), actions[1..]);
    }
  }

  lemma {:induction false} SiftSpares(c: Config, s: State, now: nat, pool: seq<nat>, gone: set<nat>)
    requires AllSessions(s, pool) && forall i :: i in pool ==> (i in gone <==> Doomed(c, s.sessions[i], now))
    ensures Sift(pool, gone) == Spared(c, s, now, pool)
  {
    hide Doomed;
    if pool != [] {
      SiftSpares(c, s, now, pool[1..], gone);
    }
  }

  /**
   An undisturbed sweep, once it has ended, has removed from the pool exactly the sessions that were closed or
   idle beyond the timeout when it began, has closed those, and has changed nothing else.
   */
  lemma UndisturbedSweep(c: Config, s: State, now: nat, actions: seq<Action>)
    requires PoolValid(s) && s.lock.Free? && Possible(c, s, [LockToSweep(now)] + actions)
    requires forall k :: 0 <= k < |actions| ==> SweepAction(actions[k])
    requires After(c, s, [LockToSweep(now)] + actions).lock.Free?
    ensures AllSessions(s, s.pool)
    ensures var t := After(c, s, [LockToSweep(now)] + actions);
            && t.pool == Spared(c, s, now, s.pool) && |t.sessions| == |s.sessions|
            && forall i :: 0 <= i < |s.sessions| ==>
                 t.sessions[i] == if i in s.pool && Doomed(c, s.sessions[i], now) then s.sessions[i].(closed := true) else s.sessions[i]
  {
    var start := Step(c, s, LockToSweep(now));
    assert ([LockToSweep(now)] + actions)[1..] == actions;
    assert AllSessions(s, s.pool) by {
      assert forall k :: 0 <= k < |s.pool| ==> InPool(s, k);
    }
    assert Sweeps(c, s, now, start) by {
      assert Gone(c, s, now, 0) == {};
      SiftNothing(s.pool);
      assert s.pool[0..] == s.pool;
    }
    hide Step, Enabled;
    RunSweeps(c, s, now, start, actions);
    assert s.pool[..|s.pool|] == s.pool;
    SiftSpares(c, s, now, s.pool, Gone(c, s, now, |s.pool|));
  }

  // Disturbed

  predicate Underway(s: State) {
    s.lock.Sweeping? || s.lock.Expiring?
  }

  /** The sessions that a sweep has yet to look at. */
  function Ahead(lock: Lock): (r: seq<nat>) {
    match lock
    case Sweeping(todo, _, found) => if todo == [] || found == Unseen then todo else todo[1..]
    case Expiring(_, later, _) => later
    case _ => []
  }

  /** Session `i` is closed, and if it is still in the pool the sweep has yet to come to it. */
  ghost predicate WillGo(s: State, i: nat) {
    i < |s.sessions| && s.sessions[i].closed && Underway(s) && (i in s.pool ==> i in Ahead(s.lock))
  }

  lemma {:induction false} WithoutIt(pool: seq<nat>, i: nat)
    ensures i !in Without(pool, i)
  {
    if pool != [] {
      WithoutIt(pool[1..], i);
    }
  }

  lemma LookWillGo(c: Config, s: State, i: nat)
    requires WillGo(s, i) && (SweepsAt(s, Unseen) || SweepsAt(s, SeenOpen) || SweepsAt(s, SeenIdle))
    ensures WillGo(SweepStep(c, s), i)
  {
    hide Without;
    WithoutIt(s.pool, s.lock.todo[0]);
    assert s.lock.todo == [s.lock.todo[0]] + s.lock.todo[1..];
  }

  lemma ExpireWillGo(c: Config, s: State, i: nat)
    requires WillGo(s, i) && Enabled(c, s, SweepExpire)
    ensures WillGo(Step(c, s, SweepExpire), i)
  {
    hide Without;
    WithoutIt(s.pool, s.lock.victim);
  }

  lemma StepWillGo(c: Config, s: State, a: Action, i: nat)
    requires WillGo(s, i) && Enabled(c, s, a) && !a.Unlock?
    ensures WillGo(Step(c, s, a), i)
  {
    hide OnSession, SweepStep;
    if ByOthers(a) {
      OthersUpdate(c, s, a);
      hide Step, Enabled;
      OnlyCountAdds(s.sessions[a.i], a);
    } else if a.SweepExpire? {
      hide Step;
      ExpireWillGo(c, s, i);
    } else if a.SweepLook? || a.SweepCount? || a.SweepDate? {
      LookWillGo(c, s, i);
    }
  }

  lemma {:induction false} RunWillGo(c: Config, s: State, actions: seq<Action>, i: nat)
    requires WillGo(s, i) && Possible(c, s, actions) && Unlock !in actions
    ensures WillGo(After(c, s, actions), i)
    decreases |actions|
  {
    hide WillGo, Step, Enabled;
    if actions != [] {
      StepWillGo(c, s, actions[0], i);
      RunWillGo(c, Step(c, s, actions[0]), actions[1..], i);
    }
  }

  /** A session that is closed when a sweep begins is out of the pool when it ends, whatever happens in between. */
  lemma SweepClears(c: Config, s: State, now: nat, actions: seq<Action>, i: nat)
    requires i < |s.sessions| && s.sessions[i].closed && s.lock == Sweeping(s.pool, now, Unseen)
    requires Possible(c, s, actions) && Unlock !in actions && Enabled(c, After(c, s, actions), Unlock)
    ensures Underway(After(c, s, actions)) && i !in After(c, s, actions).pool
  {
    hide Step;
    RunWillGo(c, s, actions, i);
  }

  /** An opener that finds its session closed has it removed before it looks again. */
  lemma FoundClosedIsDiscarded(c: Config, s: State, now: nat, actions: seq<Action>)
    requires Enabled(c, s, FindClosed(now)) && s.lock.origin == Pooled
    requires Possible(c, Step(c, s, FindClosed(now)), actions) && Unlock !in actions
    requires Enabled(c, After(c, Step(c, s, FindClosed(now)), actions), Unlock)
    ensures s.lock.i !in After(c, Step(c, s, FindClosed(now)), actions).pool
  {
    SweepClears(c, Step(c, s, FindClosed(now)), now, actions, s.lock.i);
  }

  /** So has one whose session turns out closed after it could not draw an id. */
  lemma RefusedClosedIsDiscarded(c: Config, s: State, now: nat, actions: seq<Action>)
    requires Enabled(c, s, Report(now)) && s.lock.origin == Pooled && s.sessions[s.lock.i].closed
    requires Possible(c, Step(c, s, Report(now)), actions) && Unlock !in actions
    requires Enabled(c, After(c, Step(c, s, Report(now)), actions), Unlock)
    ensures s.lock.i !in After(c, Step(c, s, Report(now)), actions).pool
  {
    SweepClears(c, Step(c, s, Report(now)), now, actions, s.lock.i);
  }

  lemma {:induction false} WithoutKeeps(pool: seq<nat>, i: nat, j: nat)
    requires j in pool && j != i
    ensures j in Without(pool, i)
  {
    if pool[0] != j {
      assert j in pool[1..];
      WithoutKeeps(pool[1..], i, j);
    }
  }

  lemma StepLeaves(c: Config, s: State, a: Action, i: nat)
    requires Enabled(c, s, a) && i < |s.sessions| && (i in s.pool || s.sessions[i].closed)
    ensures var t := Step(c, s, a); i < |t.sessions| && (i in t.pool || t.sessions[i].closed)
  {
    hide ScanStep, ScanEnabled, Without;
    OnlyCountAdds(s.sessions[i], a);
    if i in s.pool && !Step(c, s, a).sessions[i].closed {
      if a.SweepLook? && s.lock.todo[0] != i {
        WithoutKeeps(s.pool, s.lock.todo[0], i);
      } else if a.SweepExpire? && s.lock.victim != i {
        WithoutKeeps(s.pool, s.lock.victim, i);
      }
    }
  }

  /** Whatever happens, a session leaves the pool only closed. */
  lemma {:induction false} OnlyClosedLeave(c: Config, s: State, actions: seq<Action>, i: nat)
    requires Possible(c, s, actions) && i < |s.sessions| && (i in s.pool || s.sessions[i].closed)
    ensures var t := After(c, s, actions); i < |t.sessions| && (i in t.pool || t.sessions[i].closed)
    decreases |actions|
  {
    hide Step, Enabled;
    if actions != [] {
      StepLeaves(c, s, actions[0], i);
      OnlyClosedLeave(c, Step(c, s, actions[0]), actions[1..], i);
    }
  }

  // Times

  /** When session `i` was last touched in a run, or `before`. */
  function LastTouch(actions: seq<Action>, i: nat, before: nat): (r: nat)
    decreases |actions|
  {
    if actions == [] then before
    else LastTouch(actions[1..], i, if actions[0].Touch? && actions[0].i == i then actions[0].now else before)
  }

  lemma StepTouches(c: Config, s: State, a: Action, i: nat)
    requires Enabled(c, s, a) && i < |s.sessions|
    ensures var t := Step(c, s, a);
            i < |t.sessions| && t.sessions[i].lastUsed == if a.Touch? && a.i == i then a.now else s.sessions[i].lastUsed
  {
    hide ScanStep, ScanEnabled, Without, OnSession;
    OnlyTouchDates(s.sessions[i], a);
    if ByOthers(a) {
      OthersUpdate(c, s, a);
    }
  }

  lemma OnlyTouchDates(x: Session, a: Action)
    ensures OnSession(x, a).lastUsed == if a.Touch? then a.now else x.lastUsed
  {}

  /** The time that selection and expiry go by is that of the last touch, whatever else happens. */
  lemma {:induction false} UsedWhenTouched(c: Config, s: State, actions: seq<Action>, i: nat)
    requires Possible(c, s, actions) && i < |s.sessions|
    ensures var t := After(c, s, actions);
            i < |t.sessions| && t.sessions[i].lastUsed == LastTouch(actions, i, s.sessions[i].lastUsed)
    decreases |actions|
  {
    hide Step, Enabled;
    if actions != [] {
      StepTouches(c, s, actions[0], i);
      UsedWhenTouched(c, Step(c, s, actions[0]), actions[1..], i);
    }
  }
}
