/** The two scans of the pool, while nothing else runs, choose as `AnytlsSelect.Select` does on a snapshot. */
module AnytlsScan {
  import opened Bytes
  import opened AnytlsSelect
  import opened AnytlsPool
  import opened AnytlsLimits

  function Snapshot(s: State): (r: seq<Entry>)
    requires PoolValid(s)
    ensures |r| == |s.pool|
  {
    seq(|s.pool|, k requires 0 <= k < |s.pool| => Entry(ActiveAt(s, k), TimeAt(s, k)))
  }

  /** A pick is the place the specification prefers so far, with its time or its count. */
  predicate IsIdle(pick: Option<Pick>, es: seq<Entry>, n: nat)
    requires n <= |es|
  {
    match FreshestIdle(es, n)
    case None => pick.None?
    case Some(k) => pick == Some(Pick(k, es[k].lastUsed))
  }

  predicate IsBusy(limit: Limit, pick: Option<Pick>, es: seq<Entry>, n: nat)
    requires n <= |es|
  {
    match LeastBusy(es, StreamMax(limit), n)
    case None => pick.None?
    case Some(k) => pick == Some(Pick(k, es[k].active))
  }

  /** The first scan found nothing and the second is needed. */
  predicate NeedsSecond(limit: Limit, es: seq<Entry>) {
    FreshestIdle(es, |es|).None? && (limit.MaxConnections? ==> |es| >= limit.connections)
  }

  /** A comparison in progress has read what a snapshot shows, and is not settled by it. */
  predicate Reading(es: seq<Entry>, best: nat, rival: nat, got: seq<nat>)
    requires best < |es| && rival < |es|
  {
    && |got| <= 3 && !Settled(got)
    && (|got| > 0 ==> got[0] == es[best].active)
    && (|got| > 1 ==> got[1] == es[rival].active)
    && (|got| > 2 ==> got[2] == es[rival].lastUsed)
  }

  ghost predicate Follows(c: Config, s: State) {
    PoolValid(s) && Agrees(c, Snapshot(s), s.pool, s.lock)
  }

  /** The lock of a selection is where the specification is on the snapshot. */
  ghost predicate Agrees(c: Config, es: seq<Entry>, pool: seq<nat>, lock: Lock)
    requires |es| == |pool|
  {
    match lock
    case Looking(scan, idle) => |scan.first| <= |es| && IsIdle(idle, es, |scan.first|)
    case Dating(scan, idle) =>
      0 < |scan.first| <= |es| && es[|scan.first| - 1].active == 0 && IsIdle(idle, es, |scan.first| - 1)
    case Rereading(scan, busy) => |scan.second| <= |es| && NeedsSecond(c.limit, es) && IsBusy(c.limit, busy, es, |scan.second|)
    case Weighing(scan, best, rival, got) =>
      && 0 < |scan.second| <= |es| && NeedsSecond(c.limit, es)
      && IsBusy(c.limit, Some(best), es, |scan.second| - 1)
      && rival == Pick(|scan.second| - 1, es[|scan.second| - 1].active)
      && Usable(es[rival.at], StreamMax(c.limit))
      && Reading(es, best.at, rival.at, got)
    case Connecting(_) => Select(es, c.limit).None?
    case Chosen(i, _, _, _) => Select(es, c.limit).Some? && i == pool[Select(es, c.limit).value]
    case _ => false
  }

  lemma SameSnapshot(s: State, l: Lock)
    requires PoolValid(s)
    ensures PoolValid(s.(lock := l)) && Snapshot(s.(lock := l)) == Snapshot(s)
  {}

  lemma IdleNext(pick: Option<Pick>, es: seq<Entry>, n: nat)
    requires n < |es| && IsIdle(pick, es, n)
    ensures es[n].active != 0 ==> IsIdle(pick, es, n + 1)
    ensures es[n].active == 0 ==>
              IsIdle(if pick.None? || pick.value.read <= es[n].lastUsed then Some(Pick(n, es[n].lastUsed)) else pick, es, n + 1)
  {
    var best := FreshestIdle(es, n);
    assert FreshestIdle(es, n + 1) ==
           if es[n].active == 0 && (best.None? || es[best.value].lastUsed <= es[n].lastUsed) then Some(n) else best;
    hide FreshestIdle;
  }

  lemma BusyNext(limit: Limit, pick: Option<Pick>, es: seq<Entry>, n: nat)
    requires n < |es| && IsBusy(limit, pick, es, n)
    ensures !MayCarry(limit, es[n].active) ==> IsBusy(limit, pick, es, n + 1)
    ensures MayCarry(limit, es[n].active) && pick.None? ==> IsBusy(limit, Some(Pick(n, es[n].active)), es, n + 1)
    ensures MayCarry(limit, es[n].active) && pick.Some? ==>
              && pick.value.at < |es|
              && IsBusy(limit, if Busier(es[pick.value.at], es[n]) then Some(Pick(n, es[n].active)) else pick, es, n + 1)
  {
    var max := StreamMax(limit);
    var best := LeastBusy(es, max, n);
    assert LeastBusy(es, max, n + 1) ==
           if Usable(es[n], max) && (best.None? || Busier(es[best.value], es[n])) then Some(n) else best;
    hide LeastBusy, Busier;
  }

  // One access, on the snapshot

  lemma FirstAgrees(c: Config, es: seq<Entry>, pool: seq<nat>, scan: Scan, idle: Option<Pick>)
    requires |es| == |pool| && |scan.first| < |es| && IsIdle(idle, es, |scan.first|)
    ensures Agrees(c, es, pool, AfterFirst(scan, idle, es[|scan.first|].active))
  {
    var n := |scan.first|;
    assert |scan.first + [es[n].active]| == n + 1;
    hide IsIdle;
    IdleNext(idle, es, n);
  }

  lemma DateAgrees(c: Config, es: seq<Entry>, pool: seq<nat>, scan: Scan, idle: Option<Pick>)
    requires |es| == |pool| && Agrees(c, es, pool, Dating(scan, idle))
    ensures Agrees(c, es, pool, AfterDate(scan, idle, es[|scan.first| - 1].lastUsed))
  {
    hide IsIdle;
    IdleNext(idle, es, |scan.first| - 1);
  }

  lemma SecondAgrees(c: Config, es: seq<Entry>, pool: seq<nat>, scan: Scan, busy: Option<Pick>)
    requires |es| == |pool| && |scan.second| < |es| && NeedsSecond(c.limit, es) && IsBusy(c.limit, busy, es, |scan.second|)
    ensures Agrees(c, es, pool, AfterSecond(c.limit, scan, busy, es[|scan.second|].active))
  {
    var n := |scan.second|;
    assert |scan.second + [es[n].active]| == n + 1;
    hide NeedsSecond, IsBusy, MayCarry, Usable, Reading;
    ReadBusy(c.limit, es, busy, n);
  }

  lemma WeighAgrees(c: Config, es: seq<Entry>, pool: seq<nat>, scan: Scan, best: Pick, rival: Pick, got: seq<nat>, read: nat)
    requires |es| == |pool| && Agrees(c, es, pool, Weighing(scan, best, rival, got))
    requires best.at < |es| && read == Shown(es, best.at, rival.at, |got|)
    ensures Agrees(c, es, pool, AfterWeigh(scan, best, rival, got + [read]))
  {
    assert MayCarry(c.limit, es[rival.at].active);
    hide NeedsSecond, IsBusy, MayCarry, Usable, Reading, Settled, RivalWins, Busier;
    BusyNext(c.limit, Some(best), es, rival.at);
    WeighingSettles(es, best.at, rival.at, got, read);
  }

  lemma ReadBusy(limit: Limit, es: seq<Entry>, pick: Option<Pick>, n: nat)
    requires n < |es| && IsBusy(limit, pick, es, n)
    ensures !MayCarry(limit, es[n].active) ==> IsBusy(limit, pick, es, n + 1)
    ensures MayCarry(limit, es[n].active) && pick.None? ==> IsBusy(limit, Some(Pick(n, es[n].active)), es, n + 1)
    ensures MayCarry(limit, es[n].active) ==> Usable(es[n], StreamMax(limit))
    ensures pick.Some? ==> pick.value.at < n && Reading(es, pick.value.at, n, [])
  {
    BusyIsInside(limit, pick, es, n);
    BusyNext(limit, pick, es, n);
  }

  lemma BusyIsInside(limit: Limit, pick: Option<Pick>, es: seq<Entry>, n: nat)
    requires n <= |es| && IsBusy(limit, pick, es, n)
    ensures pick.Some? ==> pick.value.at < n
  {}

  /** What the next read of a comparison shows. */
  function Shown(es: seq<Entry>, best: nat, rival: nat, done: nat): nat
    requires best < |es| && rival < |es|
  {
    if done == 0 then es[best].active
    else if done == 1 then es[rival].active
    else if done == 2 then es[rival].lastUsed
    else es[best].lastUsed
  }

  /** A settled comparison prefers what the specification prefers. */
  lemma WeighingSettles(es: seq<Entry>, best: nat, rival: nat, got: seq<nat>, read: nat)
    requires best < |es| && rival < |es| && Reading(es, best, rival, got) && read == Shown(es, best, rival, |got|)
    ensures if Settled(got + [read]) then RivalWins(got + [read]) <==> Busier(es[best], es[rival])
            else Reading(es, best, rival, got + [read])
  {}

  // One access, on the pool

  lemma ReadFirstFollows(c: Config, s: State)
    requires Follows(c, s) && ScanEnabled(s, ReadFirst)
    ensures Follows(c, s.(lock := ScanStep(c, s, ReadFirst)))
  {
    hide AfterFirst, IsIdle;
    SameSnapshot(s, ScanStep(c, s, ReadFirst));
    FirstAgrees(c, Snapshot(s), s.pool, s.lock.scan, s.lock.idle);
  }

  lemma ReadDateFollows(c: Config, s: State)
    requires Follows(c, s) && ScanEnabled(s, ReadDate)
    ensures Follows(c, s.(lock := ScanStep(c, s, ReadDate)))
  {
    hide AfterDate, IsIdle;
    SameSnapshot(s, ScanStep(c, s, ReadDate));
    DateAgrees(c, Snapshot(s), s.pool, s.lock.scan, s.lock.idle);
  }

  lemma EndFirstFollows(c: Config, s: State)
    requires Follows(c, s) && ScanEnabled(s, EndFirst)
    requires s.lock.scan.second == []
    ensures Follows(c, s.(lock := ScanStep(c, s, EndFirst)))
  {
    SameSnapshot(s, ScanStep(c, s, EndFirst));
    hide IsBusy;
    NoneBusyYet(c.limit, Snapshot(s));
  }

  lemma NoneBusyYet(limit: Limit, es: seq<Entry>)
    ensures IsBusy(limit, None, es, 0)
  {}

  lemma ReadSecondFollows(c: Config, s: State)
    requires Follows(c, s) && ScanEnabled(s, ReadSecond)
    ensures Follows(c, s.(lock := ScanStep(c, s, ReadSecond)))
  {
    hide AfterSecond, IsBusy, NeedsSecond;
    SameSnapshot(s, ScanStep(c, s, ReadSecond));
    SecondAgrees(c, Snapshot(s), s.pool, s.lock.scan, s.lock.busy);
  }

  lemma WeighFollows(c: Config, s: State)
    requires Follows(c, s) && ScanEnabled(s, Weigh)
    ensures Follows(c, s.(lock := ScanStep(c, s, Weigh)))
  {
    hide AfterWeigh, IsBusy, NeedsSecond, Reading;
    var best, rival, got := s.lock.best, s.lock.rival, s.lock.got;
    SameSnapshot(s, ScanStep(c, s, Weigh));
    WeighAgrees(c, Snapshot(s), s.pool, s.lock.scan, best, rival, got, NextRead(s, best.at, rival.at, |got|));
  }

  lemma EndSecondFollows(c: Config, s: State)
    requires Follows(c, s) && ScanEnabled(s, EndSecond)
    ensures Follows(c, s.(lock := ScanStep(c, s, EndSecond)))
  {
    SameSnapshot(s, ScanStep(c, s, EndSecond));
  }

  predicate ScanAction(a: Action) {
    a.ReadFirst? || a.ReadDate? || a.EndFirst? || a.ReadSecond? || a.Weigh? || a.EndSecond?
  }

  /** The second scan has not begun before the first ends. */
  predicate InOrder(s: State) {
    s.lock.Looking? || s.lock.Dating? ==> s.lock.scan.second == []
  }

  lemma StepFollows(c: Config, s: State, a: Action)
    requires Follows(c, s) && InOrder(s) && Enabled(c, s, a) && ScanAction(a)
    ensures Step(c, s, a) == s.(lock := ScanStep(c, s, a)) && Follows(c, Step(c, s, a)) && InOrder(Step(c, s, a))
  {
    ScanChooses(c, s, a);
    assert InOrder(Step(c, s, a));
    hide Follows, ScanStep;
    match a {
      case ReadFirst => ReadFirstFollows(c, s);
      case ReadDate => ReadDateFollows(c, s);
      case EndFirst => EndFirstFollows(c, s);
      case ReadSecond => ReadSecondFollows(c, s);
      case Weigh => WeighFollows(c, s);
      case EndSecond => EndSecondFollows(c, s);
    }
  }

  lemma {:induction false} RunFollows(c: Config, s: State, actions: seq<Action>)
    requires Follows(c, s) && InOrder(s) && Possible(c, s, actions)
    requires forall k :: 0 <= k < |actions| ==> ScanAction(actions[k])
    ensures Follows(c, After(c, s, actions))
    ensures After(c, s, actions).sessions == s.sessions && After(c, s, actions).pool == s.pool
    decreases |actions|
  {
    hide Follows, Step, Enabled, InOrder;
    if actions != [] {
      StepFollows(c, s, actions[0]);
      RunFollows(c, Step(c, s, actions[0]), actions[1..]);
    }
  }

  /** An undisturbed selection ends as the specification says: with that session, or with nothing exactly if there is none. */
  lemma UndisturbedSelection(c: Config, s: State, actions: seq<Action>)
    requires PoolValid(s) && s.lock.Free? && Possible(c, s, [LockToOpen] + actions)
    requires forall k :: 0 <= k < |actions| ==> ScanAction(actions[k])
    ensures var t := After(c, s, [LockToOpen] + actions);
            && t.sessions == s.sessions && t.pool == s.pool
            && (t.lock.Connecting? ==> Select(Snapshot(s), c.limit).None?)
            && (t.lock.Chosen? ==> Select(Snapshot(s), c.limit).Some? && t.lock.i == s.pool[Select(Snapshot(s), c.limit).value])
  {
    hide Follows, Step, Enabled, InOrder, Snapshot;
    var start := Step(c, s, LockToOpen);
    StartFollows(c, s);
    assert ([LockToOpen] + actions)[1..] == actions;
    RunFollows(c, start, actions);
    FollowsMeans(c, s, After(c, start, actions));
  }

  lemma StartFollows(c: Config, s: State)
    requires PoolValid(s) && s.lock.Free?
    ensures Enabled(c, s, LockToOpen)
    ensures var t := Step(c, s, LockToOpen);
            t.sessions == s.sessions && t.pool == s.pool && Follows(c, t) && InOrder(t)
  {
    var t := Step(c, s, LockToOpen);
    SameSnapshot(s, t.lock);
    assert IsIdle(None, Snapshot(s), 0);
  }

  lemma FollowsMeans(c: Config, s: State, t: State)
    requires PoolValid(s) && Follows(c, t) && t.sessions == s.sessions && t.pool == s.pool
    ensures t.lock.Connecting? ==> Select(Snapshot(s), c.limit).None?
    ensures t.lock.Chosen? ==> Select(Snapshot(s), c.limit).Some? && t.lock.i == s.pool[Select(Snapshot(s), c.limit).value]
  {
    hide Select;
    assert t == s.(lock := t.lock);
    SameSnapshot(s, t.lock);
  }
}
