/**
 The client session pool of src/protocol/anytls/outbound.rs, as interleaved atomic steps.

 Openers and the cleaner take turns holding the pool lock; everything else (inserting a
 stream, closing it from any side, closing a session, the compare-and-swap loop of a
 release) happens at any time in between. One action is one atomic access of the source:
 a load, a store, a fetch-and-add, a compare-and-swap, or one critical section of the
 stream map. `select` is two scans of the pool with one access per step.
 */
module AnytlsPool {
  import opened Bytes
  import opened AnytlsSelect

  const ID_SPACE: nat := 0x1_0000_0000

  /** The id that the `n`-th draw of a session yields: the counter starts at 1 and wraps. */
  function IdOf(n: nat): u32 {
    n % ID_SPACE
  }

  /** Streams are told apart by the number of the draw that made them, since ids repeat after 2^32 draws. */
  datatype Session = Session(
    closed: bool,
    /** Draws so far; the source's `next_stream_id` is `IdOf(drawn + 1)`. */
    drawn: nat,
    active: nat,
    lastUsed: nat,
    /** The stream map. */
    streams: map<u32, nat>,
    /** Handed out by `reserve_stream`, not yet in the map. */
    reserved: set<nat>,
    /** Taken out of the map, not yet released; with the counter value the release loop last saw, if any. */
    releasing: map<nat, Option<nat>>,
    /** Tasks that emptied the map and have yet to zero the counter. */
    clearing: nat,
    /** Streams whose release is complete, and whether any completed a second release. */
    released: set<nat>,
    releasedTwice: bool,
    /** Streams overwritten in the map by a later one with the same id. */
    lost: nat)

  const NEW_SESSION := Session(false, 0, 0, 0, map[], {}, map[], 0, {}, false, 0)

  /** Progress of `reserve_stream`, which runs only under the pool lock. */
  datatype Phase = ToCheck | ToDraw | ToCount(n: nat) | ToReport

  /** What the sweep has found of the session it looks at. */
  datatype Found = Unseen | SeenOpen | SeenIdle

  /** The counters when a selection took the lock, and what each of its scans has read since. */
  datatype Scan = Scan(began: seq<nat>, first: seq<nat>, second: seq<nat>)

  /** A place in the pool with the value that was read there. */
  datatype Pick = Pick(at: nat, read: nat)

  datatype Origin = Pooled | Fresh(scan: Scan)

  datatype Lock =
    | Free
    /** First scan; `idle` is the idle session preferred so far, with its time. */
    | Looking(scan: Scan, idle: Option<Pick>)
    /** The session just read is idle, its time is read next. */
    | Dating(scan: Scan, idle: Option<Pick>)
    /** Second scan; `busy` is the busy session preferred so far, with the count that let it pass. */
    | Rereading(scan: Scan, busy: Option<Pick>)
    /** Two sessions are compared, by up to four more reads. */
    | Weighing(scan: Scan, best: Pick, rival: Pick, got: seq<nat>)
    /** `select` returned nothing. */
    | Connecting(scan: Scan)
    /** `seen` is the count with which the session passed the selection. */
    | Chosen(i: nat, seen: nat, origin: Origin, phase: Phase)
    /** `now` is the time at which the sweep began. */
    | Sweeping(todo: seq<nat>, now: nat, found: Found)
    | Expiring(victim: nat, later: seq<nat>, began: nat)

  datatype Config = Config(limit: Limit, idleTimeout: nat)

  /** All sessions ever connected, and the pool as places among them. */
  datatype State = State(sessions: seq<Session>, pool: seq<nat>, lock: Lock)

  const INITIAL := State([], [], Free)

  datatype Action =
    | LockToOpen | LockToSweep(now: nat) | Unlock
    | ReadFirst | ReadDate | EndFirst | ReadSecond | Weigh | EndSecond
    | Connect | ConnectFails | CheckOpen | FindClosed(now: nat) | Draw | Overflow | Report(now: nat) | Count
    | SweepLook | SweepCount | SweepDate | SweepExpire
    | Insert(i: nat, n: nat) | Remove(i: nat, id: u32) | Load(i: nat, n: nat) | Swap(i: nat, n: nat)
    | Close(i: nat) | ClearMap(i: nat) | ClearCount(i: nat) | Touch(i: nat, now: nat)

  // Selection

  predicate InPool(s: State, k: nat) {
    k < |s.pool| && s.pool[k] < |s.sessions|
  }

  function ActiveAt(s: State, k: nat): nat
    requires InPool(s, k)
  {
    s.sessions[s.pool[k]].active
  }

  function TimeAt(s: State, k: nat): nat
    requires InPool(s, k)
  {
    s.sessions[s.pool[k]].lastUsed
  }

  /** The counters of the pooled sessions. */
  function Counters(s: State): (r: seq<nat>)
    ensures |r| == |s.pool|
  {
    seq(|s.pool|, k requires 0 <= k < |s.pool| => if s.pool[k] < |s.sessions| then s.sessions[s.pool[k]].active else 0)
  }

  function StreamMax(limit: Limit): Option<nat> {
    if limit.MaxStreams? then Some(limit.streams) else None
  }

  predicate MayCarry(limit: Limit, active: nat) {
    active > 0 && (limit.MaxStreams? ==> active < limit.streams)
  }

  /** Whether the reads of a comparison settle it: two counts that differ, or two equal counts and two times. */
  predicate Settled(got: seq<nat>) {
    (|got| == 2 && got[0] != got[1]) || |got| == 4
  }

  /** The rival wins with the smaller count or, of equals, the later time. */
  predicate RivalWins(got: seq<nat>)
    requires Settled(got)
  {
    got[0] > got[1] || (|got| == 4 && got[0] == got[1] && got[2] > got[3])
  }

  function NextRead(s: State, best: nat, rival: nat, done: nat): nat
    requires InPool(s, best) && InPool(s, rival)
  {
    if done == 0 then ActiveAt(s, best)
    else if done == 1 then ActiveAt(s, rival)
    else if done == 2 then TimeAt(s, rival)
    else TimeAt(s, best)
  }

  predicate ScanEnabled(s: State, a: Action) {
    match a
    case ReadFirst => s.lock.Looking? && InPool(s, |s.lock.scan.first|)
    case ReadDate => s.lock.Dating? && s.lock.scan.first != [] && InPool(s, |s.lock.scan.first| - 1)
    case EndFirst =>
      && s.lock.Looking? && |s.lock.scan.first| == |s.pool|
      && (s.lock.idle.Some? ==> InPool(s, s.lock.idle.value.at))
    case ReadSecond => s.lock.Rereading? && InPool(s, |s.lock.scan.second|)
    case Weigh => s.lock.Weighing? && InPool(s, s.lock.best.at) && InPool(s, s.lock.rival.at)
    case EndSecond =>
      && s.lock.Rereading? && |s.lock.scan.second| == |s.pool|
      && (s.lock.busy.Some? ==> InPool(s, s.lock.busy.value.at))
    case _ => false
  }

  /** The lock after each access of `select`, given what was read. */
  function AfterFirst(scan: Scan, idle: Option<Pick>, read: nat): Lock {
    var more := scan.(first := scan.first + [read]);
    if read == 0 then Dating(more, idle) else Looking(more, idle)
  }

  function AfterDate(scan: Scan, idle: Option<Pick>, time: nat): Lock
    requires scan.first != []
  {
    Looking(scan, if idle.None? || idle.value.read <= time then Some(Pick(|scan.first| - 1, time)) else idle)
  }

  function AfterSecond(limit: Limit, scan: Scan, busy: Option<Pick>, read: nat): Lock {
    var more, pick := scan.(second := scan.second + [read]), Pick(|scan.second|, read);
    if !MayCarry(limit, read) then Rereading(more, busy)
    else if busy.None? then Rereading(more, Some(pick))
    else Weighing(more, busy.value, pick, [])
  }

  function AfterWeigh(scan: Scan, best: Pick, rival: Pick, got: seq<nat>): Lock {
    if !Settled(got) then Weighing(scan, best, rival, got)
    else Rereading(scan, Some(if RivalWins(got) then rival else best))
  }

  /** What a step of `select` makes of the lock. */
  function ScanStep(c: Config, s: State, a: Action): (r: Lock)
    requires ScanEnabled(s, a)
  {
    var scan := s.lock.scan;
    match a
    case ReadFirst => AfterFirst(scan, s.lock.idle, ActiveAt(s, |scan.first|))
    case ReadDate => AfterDate(scan, s.lock.idle, TimeAt(s, |scan.first| - 1))
    case EndFirst =>
      if s.lock.idle.Some? then Chosen(s.pool[s.lock.idle.value.at], 0, Pooled, ToCheck)
      else if c.limit.MaxConnections? && |s.pool| < c.limit.connections then Connecting(scan)
      else Rereading(scan, None)
    case ReadSecond => AfterSecond(c.limit, scan, s.lock.busy, ActiveAt(s, |scan.second|))
    case Weigh =>
      var read := NextRead(s, s.lock.best.at, s.lock.rival.at, |s.lock.got|);
      AfterWeigh(scan, s.lock.best, s.lock.rival, s.lock.got + [read])
    case EndSecond =>
      if s.lock.busy.None? then Connecting(scan)
      else Chosen(s.pool[s.lock.busy.value.at], s.lock.busy.value.read, Pooled, ToCheck)
  }

  // Steps

  predicate Enabled(c: Config, s: State, a: Action) {
    match a
    case LockToOpen => s.lock.Free?
    case LockToSweep(_) => s.lock.Free?
    case Unlock => s.lock.Sweeping? && s.lock.todo == []
    case ReadFirst => ScanEnabled(s, a)
    case ReadDate => ScanEnabled(s, a)
    case EndFirst => ScanEnabled(s, a)
    case ReadSecond => ScanEnabled(s, a)
    case Weigh => ScanEnabled(s, a)
    case EndSecond => ScanEnabled(s, a)
    case Connect => s.lock.Connecting?
    case ConnectFails => s.lock.Connecting?
    case CheckOpen => At(s, ToCheck) && !s.sessions[s.lock.i].closed
    case FindClosed(_) => At(s, ToCheck) && s.sessions[s.lock.i].closed
    case Draw => At(s, ToDraw) && IdOf(s.sessions[s.lock.i].drawn + 1) != 0
    case Overflow => At(s, ToDraw) && IdOf(s.sessions[s.lock.i].drawn + 1) == 0
    case Report(_) => At(s, ToReport)
    case Count => s.lock.Chosen? && s.lock.phase.ToCount? && s.lock.i < |s.sessions|
    case SweepLook => SweepsAt(s, Unseen)
    case SweepCount => SweepsAt(s, SeenOpen)
    case SweepDate => SweepsAt(s, SeenIdle)
    case SweepExpire => s.lock.Expiring? && s.lock.victim < |s.sessions|
    case Insert(i, n) => i < |s.sessions| && n in s.sessions[i].reserved
    case Remove(i, _) => i < |s.sessions|
    case Load(i, n) => i < |s.sessions| && n in s.sessions[i].releasing && s.sessions[i].releasing[n].None?
    case Swap(i, n) => i < |s.sessions| && n in s.sessions[i].releasing && s.sessions[i].releasing[n].Some?
    case Close(i) => i < |s.sessions|
    case ClearMap(i) => i < |s.sessions| && s.sessions[i].closed
    case ClearCount(i) => i < |s.sessions| && s.sessions[i].clearing > 0
    case Touch(i, _) => i < |s.sessions|
  }

  predicate At(s: State, phase: Phase) {
    s.lock.Chosen? && s.lock.phase == phase && s.lock.i < |s.sessions|
  }

  predicate SweepsAt(s: State, found: Found) {
    s.lock.Sweeping? && s.lock.found == found && s.lock.todo != [] && s.lock.todo[0] < |s.sessions|
  }

  function StartSweep(s: State, now: nat): State {
    s.(lock := Sweeping(s.pool, now, Unseen))
  }

  /** The sweep leaves a session in the pool and turns to the next. */
  function Keep(s: State): State
    requires s.lock.Sweeping? && s.lock.todo != []
  {
    s.(lock := Sweeping(s.lock.todo[1..], s.lock.now, Unseen))
  }

  /** One read of the sweep. */
  function SweepStep(c: Config, s: State): (r: State)
    requires SweepsAt(s, Unseen) || SweepsAt(s, SeenOpen) || SweepsAt(s, SeenIdle)
  {
    var i := s.lock.todo[0];
    match s.lock.found
    case Unseen => if s.sessions[i].closed then Keep(s).(pool := Without(s.pool, i)) else s.(lock := s.lock.(found := SeenOpen))
    case SeenOpen => if s.sessions[i].active == 0 then s.(lock := s.lock.(found := SeenIdle)) else Keep(s)
    case SeenIdle =>
      if s.lock.now > s.sessions[i].lastUsed + c.idleTimeout then s.(lock := Expiring(i, s.lock.todo[1..], s.lock.now)) else Keep(s)
  }

  function Without(pool: seq<nat>, i: nat): (r: seq<nat>)
    ensures |r| <= |pool| && forall k :: k in r ==> k in pool
  {
    if pool == [] then []
    else if pool[0] == i then Without(pool[1..], i)
    else [pool[0]] + Without(pool[1..], i)
  }

  /** What an action does to the one session it touches. */
  function OnSession(x: Session, a: Action): (r: Session) {
    match a
    case Draw => x.(drawn := x.drawn + 1)
    case Overflow => x.(drawn := x.drawn + 1)
    case SweepExpire => x.(closed := true)
    case Insert(_, n) => Inserted(x, n)
    case Remove(_, id) =>
      if id in x.streams then x.(streams := x.streams - {id}, releasing := x.releasing[x.streams[id] := None]) else x
    case Load(_, n) => x.(releasing := x.releasing[n := Some(x.active)])
    case Swap(_, n) =>
      if n !in x.releasing || x.releasing[n].None? then x
      else
        var current := x.releasing[n].value;
        if current == 0 then Freed(x, n)
        else if x.active == current then Freed(x.(active := x.active - 1), n)
        else x.(releasing := x.releasing[n := Some(x.active)])
    case Close(_) => x.(closed := true)
    case ClearMap(_) => x.(streams := map[], clearing := x.clearing + (if x.streams == map[] then 0 else 1))
    case ClearCount(_) => if x.clearing > 0 then x.(active := 0, clearing := x.clearing - 1) else x
    case Touch(_, now) => x.(lastUsed := now)
    case _ => x
  }

  /** Inserting into the map replaces what is there under the same id. */
  function Inserted(x: Session, n: nat): (r: Session) {
    x.(reserved := x.reserved - {n}, streams := x.streams[IdOf(n) := n],
       lost := x.lost + if IdOf(n) in x.streams then 1 else 0)
  }

  function Freed(x: Session, n: nat): (r: Session) {
    x.(releasing := x.releasing - {n}, released := x.released + {n},
       releasedTwice := x.releasedTwice || n in x.released)
  }

  function CountIn(x: Session, n: nat): (r: Session) {
    x.(active := x.active + 1, reserved := x.reserved + {n})
  }

  function Update(s: State, i: nat, a: Action): (r: State)
    requires i < |s.sessions|
  {
    s.(sessions := s.sessions[i := OnSession(s.sessions[i], a)])
  }

  function Step(c: Config, s: State, a: Action): (r: State)
    requires Enabled(c, s, a)
  {
    match a
    case LockToOpen => s.(lock := Looking(Scan(Counters(s), [], []), None))
    case LockToSweep(now) => StartSweep(s, now)
    case Unlock => s.(lock := Free)
    case ReadFirst => s.(lock := ScanStep(c, s, a))
    case ReadDate => s.(lock := ScanStep(c, s, a))
    case EndFirst => s.(lock := ScanStep(c, s, a))
    case ReadSecond => s.(lock := ScanStep(c, s, a))
    case Weigh => s.(lock := ScanStep(c, s, a))
    case EndSecond => s.(lock := ScanStep(c, s, a))
    case Connect =>
      s.(sessions := s.sessions + [NEW_SESSION], lock := Chosen(|s.sessions|, 0, Fresh(s.lock.scan), ToCheck))
    case ConnectFails => s.(lock := Free)
    case CheckOpen => s.(lock := s.lock.(phase := ToDraw))
    // A new session that is already closed is an error; a pooled one is swept away and the search starts over.
    case FindClosed(now) => if s.lock.origin.Fresh? then s.(lock := Free) else StartSweep(s, now)
    case Draw => Update(s, s.lock.i, a).(lock := s.lock.(phase := ToCount(s.sessions[s.lock.i].drawn + 1)))
    case Overflow => Update(s, s.lock.i, a).(lock := s.lock.(phase := ToReport))
    case Report(now) =>
      if s.lock.origin.Fresh? || !s.sessions[s.lock.i].closed then s.(lock := Free) else StartSweep(s, now)
    case Count =>
      s.(sessions := s.sessions[s.lock.i := CountIn(s.sessions[s.lock.i], s.lock.phase.n)],
         pool := if s.lock.origin.Fresh? then s.pool + [s.lock.i] else s.pool,
         lock := Free)
    case SweepLook => SweepStep(c, s)
    case SweepCount => SweepStep(c, s)
    case SweepDate => SweepStep(c, s)
    case SweepExpire =>
      Update(s, s.lock.victim, a).(pool := Without(s.pool, s.lock.victim), lock := Sweeping(s.lock.later, s.lock.began, Unseen))
    case _ => Update(s, a.i, a)
  }

  // Runs

  ghost predicate Possible(c: Config, s: State, actions: seq<Action>)
    decreases |actions|
  {
    actions == [] || (Enabled(c, s, actions[0]) && Possible(c, Step(c, s, actions[0]), actions[1..]))
  }

  function After(c: Config, s: State, actions: seq<Action>): (r: State)
    requires Possible(c, s, actions)
    decreases |actions|
  {
    if actions == [] then s else After(c, Step(c, s, actions[0]), actions[1..])
  }

  lemma {:induction false} RunAppend(c: Config, s: State, a: seq<Action>, b: seq<Action>)
    requires Possible(c, s, a) && Possible(c, After(c, s, a), b)
    ensures Possible(c, s, a + b) && After(c, s, a + b) == After(c, After(c, s, a), b)
    decreases |a|
  {
    hide Step, Enabled;
    if a == [] {
      assert a + b == b;
    } else {
      assert (a + b)[1..] == a[1..] + b;
      RunAppend(c, Step(c, s, a[0]), a[1..], b);
    }
  }

  /** A run of one action. */
  lemma RunOne(c: Config, s: State, a: Action)
    requires Enabled(c, s, a)
    ensures Possible(c, s, [a]) && After(c, s, [a]) == Step(c, s, a)
  {
    hide Step, Enabled;
    var next := Step(c, s, a);
    assert [a][1..] == [];
    assert Possible(c, next, []) && After(c, next, []) == next;
  }

  /** Selecting changes nothing but the lock, and what it chooses is a session to be checked. */
  lemma ScanChooses(c: Config, s: State, a: Action)
    requires ScanEnabled(s, a)
    ensures Enabled(c, s, a) && Step(c, s, a) == s.(lock := ScanStep(c, s, a))
    ensures var l := ScanStep(c, s, a);
            !l.Free? && !l.Sweeping? && !l.Expiring? && (l.Chosen? ==> l.i < |s.sessions| && l.phase == ToCheck && l.origin == Pooled)
  {}

  /** Counters grow only where a stream is counted in, under the lock. */
  lemma OnlyCountAdds(x: Session, a: Action)
    ensures OnSession(x, a).active <= x.active
    ensures a != Draw && a != Overflow ==> OnSession(x, a).drawn == x.drawn
    ensures x.closed ==> OnSession(x, a).closed
    ensures OnSession(x, a).reserved <= x.reserved
  {}
}
