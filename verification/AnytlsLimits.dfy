/** The limits on streams and connections, over every interleaving of the pool's steps. */
module AnytlsLimits {
  import opened AnytlsSelect
  import opened AnytlsPool
  import opened AnytlsAccounting

  // What the two scans have read

  predicate AllBusy(counts: seq<nat>) {
    forall k :: 0 <= k < |counts| ==> counts[k] > 0
  }

  predicate AllIdle(counts: seq<nat>) {
    forall k :: 0 <= k < |counts| ==> counts[k] == 0
  }

  predicate NoneCarries(limit: Limit, counts: seq<nat>) {
    forall k :: 0 <= k < |counts| ==> !MayCarry(limit, counts[k])
  }

  /** A selection that saw a full pool, all busy at its first look and all idle at its second. */
  predicate Raced(m: nat, scan: Scan) {
    |scan.first| >= m && AllBusy(scan.first) && |scan.second| == |scan.first| && AllIdle(scan.second)
  }

  predicate PoolValid(s: State) {
    forall k :: 0 <= k < |s.pool| ==> s.pool[k] < |s.sessions|
  }

  /** Counters have only fallen since the lock was taken, so the second scan read no less than what they are now. */
  predicate Falling(s: State, scan: Scan)
    requires PoolValid(s)
  {
    && |scan.began| == |s.pool| && |scan.first| <= |s.pool| && |scan.second| <= |s.pool|
    && (forall k :: 0 <= k < |s.pool| ==> ActiveAt(s, k) <= scan.began[k])
    && (forall k :: 0 <= k < |scan.first| ==> scan.first[k] <= scan.began[k])
    && (forall k :: 0 <= k < |scan.second| ==> ActiveAt(s, k) <= scan.second[k])
  }

  /** Why `select` returned nothing. */
  predicate Justified(limit: Limit, scan: Scan) {
    && AllBusy(scan.first)
    && match limit
       case MaxConnections(m) => |scan.first| < m || Raced(m, scan)
       case MaxStreams(_) => |scan.second| == |scan.first| && NoneCarries(limit, scan.second)
  }

  /** The session at a place of the pool has no more streams than were read there. */
  predicate StillAt(s: State, pick: Pick)
    requires PoolValid(s)
  {
    pick.at < |s.pool| && ActiveAt(s, pick.at) <= pick.read
  }

  predicate BusyAt(limit: Limit, s: State, pick: Pick)
    requires PoolValid(s)
  {
    StillAt(s, pick) && MayCarry(limit, pick.read)
  }

  predicate IdleAt(s: State, pick: Pick)
    requires PoolValid(s)
  {
    StillAt(s, Pick(pick.at, 0))
  }

  predicate Second(limit: Limit, s: State, scan: Scan)
    requires PoolValid(s)
  {
    && Falling(s, scan) && |scan.first| == |s.pool| && AllBusy(scan.first)
    && (limit.MaxConnections? ==> |s.pool| >= limit.connections)
  }

  ghost predicate LockTrue(limit: Limit, s: State)
    requires PoolValid(s)
  {
    match s.lock
    case Looking(scan, idle) =>
      && Falling(s, scan) && scan.second == []
      && (if idle.None? then AllBusy(scan.first) else IdleAt(s, idle.value))
    case Dating(scan, idle) =>
      && Falling(s, scan) && scan.second == []
      && scan.first != [] && ActiveAt(s, |scan.first| - 1) == 0
      && (idle.Some? ==> IdleAt(s, idle.value))
    case Rereading(scan, busy) =>
      && Second(limit, s, scan)
      && (if busy.None? then NoneCarries(limit, scan.second) else BusyAt(limit, s, busy.value))
    case Weighing(scan, best, rival, got) =>
      && Second(limit, s, scan) && BusyAt(limit, s, best) && BusyAt(limit, s, rival)
    case Connecting(scan) =>
      && Falling(s, scan) && |scan.first| == |s.pool| && Justified(limit, scan)
    case Chosen(i, seen, origin, _) =>
      && i < |s.sessions| && s.sessions[i].active <= seen && (limit.MaxStreams? ==> seen < limit.streams)
      && (origin.Fresh? ==> |origin.scan.first| == |s.pool| && Justified(limit, origin.scan))
    case Sweeping(todo, _, _) => AllSessions(s, todo)
    case Expiring(victim, later, _) => victim < |s.sessions| && AllSessions(s, later)
    case Free => true
  }

  predicate AllSessions(s: State, places: seq<nat>) {
    forall k :: 0 <= k < |places| ==> places[k] < |s.sessions|
  }

  ghost predicate Traced(limit: Limit, s: State) {
    PoolValid(s) && LockTrue(limit, s)
  }

  // Steps

  /** Nothing but counters changed, and none grew. */
  ghost predicate Lower(s: State, t: State) {
    && t.pool == s.pool && t.lock == s.lock && |t.sessions| == |s.sessions|
    && forall i :: 0 <= i < |s.sessions| ==> t.sessions[i].active <= s.sessions[i].active
  }

  lemma LowerStaysTraced(limit: Limit, s: State, t: State)
    requires Traced(limit, s) && Lower(s, t)
    ensures Traced(limit, t)
  {
    hide MayCarry;
    assert forall k :: 0 <= k < |s.pool| ==> t.sessions[s.pool[k]].active <= s.sessions[s.pool[k]].active;
  }

  lemma OthersLower(c: Config, s: State, a: Action)
    requires Enabled(c, s, a) && ByOthers(a)
    ensures Lower(s, Step(c, s, a))
  {
    OthersUpdate(c, s, a);
    OnlyCountAdds(s.sessions[a.i], a);
    hide Enabled, Step, OnSession;
  }

  lemma ReadFirstTraced(c: Config, s: State)
    requires Traced(c.limit, s) && ScanEnabled(s, ReadFirst)
    ensures Traced(c.limit, Step(c, s, ReadFirst))
  {
    var scan, t := s.lock.scan, Step(c, s, ReadFirst);
    assert t.lock.scan.first == scan.first + [ActiveAt(s, |scan.first|)];
  }

  lemma ReadDateTraced(c: Config, s: State)
    requires Traced(c.limit, s) && ScanEnabled(s, ReadDate)
    ensures Traced(c.limit, Step(c, s, ReadDate))
  {}

  lemma EndFirstTraced(c: Config, s: State)
    requires Configured(c.limit) && Traced(c.limit, s) && ScanEnabled(s, EndFirst)
    ensures Traced(c.limit, Step(c, s, EndFirst))
  {}

  lemma ReadSecondTraced(c: Config, s: State)
    requires Traced(c.limit, s) && ScanEnabled(s, ReadSecond)
    ensures Traced(c.limit, Step(c, s, ReadSecond))
  {
    var scan, t := s.lock.scan, Step(c, s, ReadSecond);
    assert t.lock.scan.second == scan.second + [ActiveAt(s, |scan.second|)];
  }

  lemma WeighTraced(c: Config, s: State)
    requires Traced(c.limit, s) && ScanEnabled(s, Weigh)
    ensures Traced(c.limit, Step(c, s, Weigh))
  {
    hide NextRead, RivalWins, Settled;
  }

  lemma EndSecondTraced(c: Config, s: State)
    requires Traced(c.limit, s) && ScanEnabled(s, EndSecond)
    ensures Traced(c.limit, Step(c, s, EndSecond))
  {}

  lemma ScanTraced(c: Config, s: State, a: Action)
    requires Configured(c.limit) && Traced(c.limit, s) && ScanEnabled(s, a)
    ensures Enabled(c, s, a) && Traced(c.limit, Step(c, s, a))
  {
    ScanChooses(c, s, a);
    hide Traced, Step, ScanStep, Enabled;
    match a {
      case ReadFirst => ReadFirstTraced(c, s);
      case ReadDate => ReadDateTraced(c, s);
      case EndFirst => EndFirstTraced(c, s);
      case ReadSecond => ReadSecondTraced(c, s);
      case Weigh => WeighTraced(c, s);
      case EndSecond => EndSecondTraced(c, s);
    }
  }

  lemma ConnectTraced(c: Config, s: State)
    requires Configured(c.limit) && Traced(c.limit, s) && s.lock.Connecting?
    ensures Traced(c.limit, Step(c, s, Connect))
  {}

  lemma DrawTraced(c: Config, s: State, a: Action)
    requires Traced(c.limit, s) && Enabled(c, s, a) && (a.Draw? || a.Overflow? || a.CheckOpen?)
    ensures Traced(c.limit, Step(c, s, a))
  {
    hide Justified;
  }

  lemma ShrinkTraced(c: Config, s: State, a: Action)
    requires Traced(c.limit, s) && Enabled(c, s, a) && (a.SweepLook? || a.SweepExpire?)
    ensures Traced(c.limit, Step(c, s, a))
  {
    hide OnSession;
    var t := Step(c, s, a);
    forall k | 0 <= k < |t.pool| ensures t.pool[k] < |t.sessions| {
      assert t.pool[k] in s.pool;
    }
  }

  lemma LockTraced(c: Config, s: State)
    requires Traced(c.limit, s) && s.lock.Free?
    ensures Traced(c.limit, Step(c, s, LockToOpen))
  {}

  lemma HolderTraced(c: Config, s: State, a: Action)
    requires Configured(c.limit) && Traced(c.limit, s) && Enabled(c, s, a) && !ByOthers(a) && !ScanEnabled(s, a)
    ensures Traced(c.limit, Step(c, s, a))
  {
    hide ScanEnabled, ScanStep, OnSession, CountIn, Falling, Justified, Second, BusyAt, IdleAt, NoneCarries;
    match a {
      case LockToOpen => LockTraced(c, s);
      case Connect => ConnectTraced(c, s);
      case CheckOpen => DrawTraced(c, s, a);
      case Draw => DrawTraced(c, s, a);
      case Overflow => DrawTraced(c, s, a);
      case SweepLook => ShrinkTraced(c, s, a);
      case SweepExpire => ShrinkTraced(c, s, a);
      case _ =>
    }
  }

  /** Every step keeps the record of the selection in progress true. */
  lemma StepTraced(c: Config, s: State, a: Action)
    requires Configured(c.limit) && Traced(c.limit, s) && Enabled(c, s, a)
    ensures Traced(c.limit, Step(c, s, a))
  {
    hide Traced, Step, ScanEnabled;
    if ByOthers(a) {
      OthersLower(c, s, a);
      LowerStaysTraced(c.limit, s, Step(c, s, a));
    } else if ScanEnabled(s, a) {
      ScanTraced(c, s, a);
    } else {
      HolderTraced(c, s, a);
    }
  }

  predicate Selecting(s: State) {
    s.lock.Looking? || s.lock.Dating? || s.lock.Rereading? || s.lock.Weighing?
  }

  lemma SelectorCanMove(c: Config, s: State) returns (a: Action)
    requires Traced(c.limit, s) && Selecting(s)
    ensures ScanEnabled(s, a)
  {
    a := match s.lock
         case Looking(scan, _) => if |scan.first| < |s.pool| then ReadFirst else EndFirst
         case Dating(_, _) => ReadDate
         case Rereading(scan, _) => if |scan.second| < |s.pool| then ReadSecond else EndSecond
         case _ => Weigh;
  }

  /** The lock is never stuck: whoever holds it has a next step. */
  lemma HolderCanMove(c: Config, s: State) returns (a: Action)
    requires Traced(c.limit, s) && !s.lock.Free?
    ensures Enabled(c, s, a) && !ByOthers(a)
  {
    hide ScanEnabled, ScanStep, Falling, Second, Justified;
    if Selecting(s) {
      a := SelectorCanMove(c, s);
      ScanChooses(c, s, a);
    } else {
      a := match s.lock
           case Connecting(_) => ConnectFails
           case Chosen(i, _, _, ToCheck) => if s.sessions[i].closed then FindClosed(0) else CheckOpen
           case Chosen(i, _, _, ToDraw) => if IdOf(s.sessions[i].drawn + 1) == 0 then Overflow else Draw
           case Chosen(_, _, _, ToCount(_)) => Count
           case Chosen(_, _, _, ToReport) => Report(0)
           case Sweeping(todo, _, found) =>
             if todo == [] then Unlock
             else if found == Unseen then SweepLook
             else if found == SeenOpen then SweepCount
             else SweepDate
           case _ => SweepExpire;
    }
  }

  lemma {:induction false} RunTraced(c: Config, s: State, actions: seq<Action>)
    requires Configured(c.limit) && Traced(c.limit, s) && Possible(c, s, actions)
    ensures Traced(c.limit, After(c, s, actions))
    decreases |actions|
  {
    hide Traced, Step, Enabled;
    if actions != [] {
      StepTraced(c, s, actions[0]);
      RunTraced(c, Step(c, s, actions[0]), actions[1..]);
    }
  }

  // Streams per connection

  ghost predicate Within(m: nat, s: State) {
    forall i :: 0 <= i < |s.sessions| ==> s.sessions[i].active <= m
  }

  lemma StepWithin(c: Config, s: State, a: Action)
    requires c.limit.MaxStreams? && Traced(c.limit, s) && Within(c.limit.streams, s) && Enabled(c, s, a)
    ensures Within(c.limit.streams, Step(c, s, a))
  {
    hide OnSession, ScanStep, ScanEnabled, Falling, Second, Justified;
    forall x: Session ensures OnSession(x, a).active <= x.active {
      OnlyCountAdds(x, a);
    }
  }

  lemma {:induction false} RunWithin(c: Config, s: State, actions: seq<Action>)
    requires Configured(c.limit) && c.limit.MaxStreams? && Traced(c.limit, s) && Within(c.limit.streams, s)
    requires Possible(c, s, actions)
    ensures Within(c.limit.streams, After(c, s, actions))
    decreases |actions|
  {
    hide Traced, Within, Step, Enabled;
    if actions != [] {
      StepTraced(c, s, actions[0]);
      StepWithin(c, s, actions[0]);
      RunWithin(c, Step(c, s, actions[0]), actions[1..]);
    }
  }

  /** With a limit on streams, in every interleaving, no open session ever carries more than that, nor counts more. */
  lemma StreamLimitHolds(c: Config, actions: seq<Action>, i: nat)
    requires Configured(c.limit) && c.limit.MaxStreams?
    requires Possible(c, INITIAL, actions) && i < |After(c, INITIAL, actions).sessions|
    ensures var x := After(c, INITIAL, actions).sessions[i];
            x.active <= c.limit.streams && (!x.closed ==> Carried(x) <= c.limit.streams)
  {
    RunWithin(c, INITIAL, actions);
    StreamAccounting(c, actions, i);
  }

  // Connections

  /** The selection that ends with this step raced. */
  predicate RaceEnds(c: Config, s: State, a: Action) {
    c.limit.MaxConnections? && a.EndSecond? && s.lock.Rereading? && s.lock.busy.None? && Raced(c.limit.connections, s.lock.scan)
  }

  function Races(c: Config, s: State, actions: seq<Action>): (n: nat)
    requires Possible(c, s, actions)
    decreases |actions|
  {
    if actions == [] then 0
    else (if RaceEnds(c, s, actions[0]) then 1 else 0) + Races(c, Step(c, s, actions[0]), actions[1..])
  }

  /** The connection in the making, if any, comes from a selection that raced. */
  predicate FromRace(m: nat, s: State) {
    || (s.lock.Connecting? && Raced(m, s.lock.scan))
    || (s.lock.Chosen? && s.lock.origin.Fresh? && Raced(m, s.lock.origin.scan))
  }

  /** The pool, with the connection in the making if that comes from a race, is within `m` and `n` more. */
  predicate Bounded(m: nat, n: nat, s: State) {
    |s.pool| + (if FromRace(m, s) then 1 else 0) <= m + n
  }

  lemma StepBounded(c: Config, s: State, a: Action, n: nat)
    requires c.limit.MaxConnections? && Traced(c.limit, s) && Enabled(c, s, a) && Bounded(c.limit.connections, n, s)
    ensures Bounded(c.limit.connections, n + (if RaceEnds(c, s, a) then 1 else 0), Step(c, s, a))
  {
    hide OnSession, Falling, Raced, ActiveAt, TimeAt, NextRead, RivalWins;
    if a.ReadFirst? || a.ReadDate? || a.ReadSecond? || a.Weigh? {
      assert !Step(c, s, a).lock.Connecting? && !Step(c, s, a).lock.Chosen?;
    } else if a.EndFirst? {
      EndFirstNoRace(c, s);
    }
  }

  lemma EndFirstNoRace(c: Config, s: State)
    requires c.limit.MaxConnections? && Enabled(c, s, EndFirst)
    ensures !FromRace(c.limit.connections, Step(c, s, EndFirst))
  {}

  lemma {:induction false} RunBounded(c: Config, s: State, actions: seq<Action>, n: nat)
    requires Configured(c.limit) && c.limit.MaxConnections? && Traced(c.limit, s) && Possible(c, s, actions)
    requires Bounded(c.limit.connections, n, s)
    ensures Bounded(c.limit.connections, n + Races(c, s, actions), After(c, s, actions))
    decreases |actions|
  {
    hide Traced, Bounded, Step, Enabled, RaceEnds;
    if actions != [] {
      StepTraced(c, s, actions[0]);
      StepBounded(c, s, actions[0], n);
      RunBounded(c, Step(c, s, actions[0]), actions[1..], n + if RaceEnds(c, s, actions[0]) then 1 else 0);
    }
  }

  /** In every interleaving the pool exceeds its limit by no more than the number of selections that raced. */
  lemma ConnectionBound(c: Config, actions: seq<Action>)
    requires Configured(c.limit) && c.limit.MaxConnections? && Possible(c, INITIAL, actions)
    ensures |After(c, INITIAL, actions).pool| <= c.limit.connections + Races(c, INITIAL, actions)
  {
    RunBounded(c, INITIAL, actions, 0);
  }

  /** The pool never exceeds `m` during a run. */
  ghost predicate StaysWithin(c: Config, s: State, actions: seq<Action>, m: nat)
    requires Possible(c, s, actions)
    decreases |actions|
  {
    |s.pool| <= m && (actions == [] || StaysWithin(c, Step(c, s, actions[0]), actions[1..], m))
  }

  /** Some selection that raced brings its new session into the pool. */
  ghost predicate RaceJoins(c: Config, s: State, actions: seq<Action>, m: nat)
    requires Possible(c, s, actions)
    decreases |actions|
  {
    actions != [] &&
    ((actions[0].Count? && FromRace(m, s)) || RaceJoins(c, Step(c, s, actions[0]), actions[1..], m))
  }

  lemma StepGrows(c: Config, s: State, a: Action)
    requires c.limit.MaxConnections? && Traced(c.limit, s) && Enabled(c, s, a) && |s.pool| <= c.limit.connections
    ensures |Step(c, s, a).pool| <= c.limit.connections <==> !(a.Count? && FromRace(c.limit.connections, s))
  {
    hide OnSession, Falling, ScanStep, ScanEnabled;
  }

  /**
   Exactly when the limit on connections holds: the pool stays within it throughout a run if and
   only if no selection brings in a new session after seeing a full pool all busy and then all idle.
   */
  lemma {:induction false} LimitHoldsExactlyWhen(c: Config, s: State, actions: seq<Action>)
    requires Configured(c.limit) && c.limit.MaxConnections? && Traced(c.limit, s) && Possible(c, s, actions)
    requires |s.pool| <= c.limit.connections
    ensures StaysWithin(c, s, actions, c.limit.connections) <==> !RaceJoins(c, s, actions, c.limit.connections)
    decreases |actions|
  {
    hide Traced, Step, Enabled, FromRace;
    if actions != [] {
      var next := Step(c, s, actions[0]);
      StepTraced(c, s, actions[0]);
      StepGrows(c, s, actions[0]);
      if |next.pool| <= c.limit.connections {
        LimitHoldsExactlyWhen(c, next, actions[1..]);
      } else {
        OutsideAtOnce(c, next, actions[1..], c.limit.connections);
      }
    }
  }

  lemma OutsideAtOnce(c: Config, s: State, actions: seq<Action>, m: nat)
    requires Possible(c, s, actions) && |s.pool| > m
    ensures !StaysWithin(c, s, actions, m)
  {}

  /** What a race takes: between taking the lock and connecting, every stream of every pooled session has ended. */
  lemma RaceEmptiesPool(c: Config, actions: seq<Action>)
    requires Configured(c.limit) && c.limit.MaxConnections? && Possible(c, INITIAL, actions)
    requires After(c, INITIAL, actions).lock.Connecting?
    ensures var s := After(c, INITIAL, actions);
            && |s.lock.scan.began| == |s.pool| && PoolValid(s)
            && (|s.pool| >= c.limit.connections ==>
                  AllBusy(s.lock.scan.began) && forall k :: 0 <= k < |s.pool| ==> ActiveAt(s, k) == 0)
  {
    RunTraced(c, INITIAL, actions);
  }
}
