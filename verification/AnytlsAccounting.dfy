/** What the counter of a session means, over every interleaving of the pool's steps. */
module AnytlsAccounting {
  import opened Bytes
  import opened AnytlsPool

  /** Streams that were counted in and not yet released, wherever they are. */
  function Carried(x: Session): (n: nat) {
    |x.streams| + |x.reserved| + |x.releasing|
  }

  ghost predicate Drawn(x: Session, n: nat) {
    1 <= n <= x.drawn
  }

  /** Every stream was drawn, and is in one place at most. */
  ghost predicate Placed(x: Session) {
    && (forall id :: id in x.streams ==> Drawn(x, x.streams[id]) && IdOf(x.streams[id]) == id)
    && (forall n :: n in x.reserved ==> Drawn(x, n))
    && (forall n :: n in x.releasing ==> Drawn(x, n))
    && (forall n :: n in x.released ==> Drawn(x, n))
    && (forall id :: id in x.streams ==> Unmapped(x, x.streams[id]))
    && x.reserved !! x.releasing.Keys
    && x.reserved !! x.released
    && x.released !! x.releasing.Keys
  }

  predicate Unmapped(x: Session, n: nat) {
    n !in x.reserved && n !in x.releasing && n !in x.released
  }

  /** While a session is open its counter is what it carries and what it lost, and a release in progress has seen a positive count. */
  ghost predicate Exact(x: Session) {
    !x.closed ==>
      && x.clearing == 0
      && x.active == Carried(x) + x.lost
      && (forall n :: n in x.releasing && x.releasing[n].Some? ==> x.releasing[n].value > 0)
  }

  ghost predicate Sound(x: Session) {
    Placed(x) && Exact(x) && !x.releasedTwice && (x.lost > 0 ==> x.drawn > ID_SPACE)
  }

  /** A stream just drawn is nowhere yet. */
  ghost predicate Unplaced(x: Session, n: nat) {
    Drawn(x, n) && Unmapped(x, n) && forall id :: id in x.streams ==> x.streams[id] != n
  }

  ghost predicate LockSound(s: State) {
    s.lock.Chosen? ==>
      && s.lock.i < |s.sessions|
      && (s.lock.phase.ToCount? ==> Unplaced(s.sessions[s.lock.i], s.lock.phase.n))
  }

  ghost predicate Inv(s: State) {
    && (forall i :: 0 <= i < |s.sessions| ==> Sound(s.sessions[i]))
    && LockSound(s)
  }

  // Steps of one session

  lemma MapWithout<K, V>(m: map<K, V>, k: K)
    requires k in m
    ensures (m - {k}).Keys == m.Keys - {k} && |m - {k}| == |m| - 1
  {
    assert (m - {k}).Keys == m.Keys - {k};
  }

  lemma MapWith<K, V>(m: map<K, V>, k: K, v: V)
    ensures m[k := v].Keys == m.Keys + {k} && |m[k := v]| == |m| + if k in m then 0 else 1
  {
    assert m[k := v].Keys == m.Keys + {k};
    if k in m {
      assert m.Keys + {k} == m.Keys;
    }
  }

  function Removed(x: Session, id: u32): (r: Session)
    requires id in x.streams
  {
    x.(streams := x.streams - {id}, releasing := x.releasing[x.streams[id] := None])
  }

  lemma RemovedPlaced(x: Session, id: u32)
    requires Placed(x) && id in x.streams
    ensures Placed(Removed(x, id))
  {
    var n, y := x.streams[id], Removed(x, id);
    assert y.releasing.Keys == x.releasing.Keys + {n};
    forall other | other in y.streams ensures Drawn(y, y.streams[other]) && IdOf(y.streams[other]) == other && Unmapped(y, y.streams[other]) {
      assert other in x.streams && other != id && IdOf(n) == id;
    }
  }

  lemma RemoveSound(x: Session, id: u32)
    requires Sound(x) && id in x.streams
    ensures Sound(Removed(x, id))
  {
    RemovedPlaced(x, id);
    assert x.streams[id] !in x.releasing;
    hide Placed, Exact;
    RemovedExact(x, id);
  }

  lemma RemovedExact(x: Session, id: u32)
    requires Exact(x) && id in x.streams && x.streams[id] !in x.releasing
    ensures Exact(Removed(x, id))
  {
    MapWithout(x.streams, id);
    MapWith(x.releasing, x.streams[id], None);
  }

  lemma LoadSound(x: Session, n: nat)
    requires Sound(x) && n in x.releasing
    ensures Sound(x.(releasing := x.releasing[n := Some(x.active)]))
  {
    var y := x.(releasing := x.releasing[n := Some(x.active)]);
    assert y.releasing.Keys == x.releasing.Keys;
    assert |y.releasing| == |x.releasing| > 0 by {
      assert n in x.releasing.Keys;
    }
  }

  lemma FreedPlaced(x: Session, n: nat)
    requires Placed(x) && n in x.releasing
    ensures Placed(Freed(x, n)) && Freed(x, n).releasedTwice == x.releasedTwice
  {
    var y := Freed(x, n);
    assert y.releasing.Keys == x.releasing.Keys - {n};
    assert n !in x.released && n !in x.reserved;
    assert y.streams == x.streams && y.reserved == x.reserved && y.drawn == x.drawn;
  }

  /** A release that is over: the counter went down with it, or the session is closed. */
  lemma FreedSound(x: Session, y: Session, n: nat)
    requires Sound(x) && n in x.releasing && (y == x || (x.active > 0 && y == x.(active := x.active - 1)))
    requires y == x ==> x.closed
    ensures Sound(Freed(y, n))
  {
    FreedPlaced(y, n);
    hide Placed, Exact;
    FreedExact(x, y, n);
  }

  lemma FreedExact(x: Session, y: Session, n: nat)
    requires Exact(x) && n in x.releasing && (y == x || (x.active > 0 && y == x.(active := x.active - 1)))
    requires y == x ==> x.closed
    ensures Exact(Freed(y, n))
  {
    MapWithout(x.releasing, n);
  }

  /** One turn of the release loop: while the session is open it either takes one off an exact counter or retries. */
  lemma SwapSound(x: Session, i: nat, n: nat)
    requires Sound(x) && n in x.releasing && x.releasing[n].Some?
    ensures Sound(OnSession(x, Swap(i, n)))
    ensures !x.closed ==>
              var y := OnSession(x, Swap(i, n));
              || (y.active == x.active - 1 && n in y.released)
              || (y.active == x.active && y.releasing == x.releasing[n := Some(x.active)])
  {
    var current := x.releasing[n].value;
    assert !x.closed ==> current > 0;
    SwapCases(x, i, n);
    hide Sound, OnSession;
    if current == 0 {
      FreedSound(x, x, n);
    } else if x.active == current {
      FreedSound(x, x.(active := x.active - 1), n);
    } else {
      LoadSound(x, n);
    }
  }

  lemma SwapCases(x: Session, i: nat, n: nat)
    requires n in x.releasing && x.releasing[n].Some?
    ensures OnSession(x, Swap(i, n)) ==
            if x.releasing[n].value == 0 then Freed(x, n)
            else if x.active == x.releasing[n].value then Freed(x.(active := x.active - 1), n)
            else x.(releasing := x.releasing[n := Some(x.active)])
  {}

  /** Two draws with one id are a whole id space apart. */
  lemma SameId(a: nat, b: nat)
    requires 0 < a < b && IdOf(a) == IdOf(b)
    ensures b > ID_SPACE
  {}

  lemma InsertedPlaced(x: Session, n: nat)
    requires Placed(x) && n in x.reserved
    ensures Placed(Inserted(x, n))
  {
    var y := Inserted(x, n);
    assert forall id :: id in y.streams ==> if id == IdOf(n) then y.streams[id] == n else id in x.streams && y.streams[id] == x.streams[id];
  }

  lemma OverwritesLate(x: Session, n: nat)
    requires Placed(x) && n in x.reserved && IdOf(n) in x.streams
    ensures x.drawn > ID_SPACE
  {
    var m := x.streams[IdOf(n)];
    assert m != n && Drawn(x, m) && Drawn(x, n) && IdOf(m) == IdOf(n);
    hide Placed;
    if m < n {
      SameId(m, n);
    } else {
      SameId(n, m);
    }
  }

  lemma InsertSound(x: Session, n: nat)
    requires Sound(x) && n in x.reserved
    ensures Sound(Inserted(x, n))
  {
    hide Placed, Exact, IdOf;
    InsertedPlaced(x, n);
    InsertedExact(x, n);
    if IdOf(n) in x.streams {
      OverwritesLate(x, n);
    }
  }

  lemma InsertedExact(x: Session, n: nat)
    requires Exact(x) && n in x.reserved
    ensures Exact(Inserted(x, n))
  {
    hide IdOf;
    MapWith(x.streams, IdOf(n), n);
    assert |x.reserved - {n}| == |x.reserved| - 1;
  }

  lemma DrawSound(x: Session)
    requires Sound(x)
    ensures Sound(x.(drawn := x.drawn + 1)) && Unplaced(x.(drawn := x.drawn + 1), x.drawn + 1)
  {}

  lemma CountInPlaced(x: Session, n: nat)
    requires Placed(x) && Unplaced(x, n)
    ensures Placed(CountIn(x, n))
  {
    var y := CountIn(x, n);
    assert y.released == x.released && y.releasing == x.releasing && y.streams == x.streams && y.drawn == x.drawn;
  }

  lemma CountInSound(x: Session, n: nat)
    requires Sound(x) && Unplaced(x, n)
    ensures Sound(CountIn(x, n))
  {
    CountInPlaced(x, n);
    hide Placed;
    assert |x.reserved + {n}| == |x.reserved| + 1;
  }

  lemma ClosedSound(x: Session, y: Session)
    requires Sound(x) && y.closed && y.drawn == x.drawn && y.lost == x.lost && !y.releasedTwice
    requires y.reserved == x.reserved && y.releasing == x.releasing && y.released == x.released
    requires y.streams == x.streams || y.streams == map[]
    ensures Sound(y)
  {}

  /** Steps that touch a session from outside the lock. */
  ghost predicate Fits(x: Session, a: Action) {
    match a
    case Insert(_, n) => n in x.reserved
    case Load(_, n) => n in x.releasing
    case Swap(_, n) => n in x.releasing && x.releasing[n].Some?
    case ClearMap(_) => x.closed
    case _ => true
  }

  lemma OnSessionSound(x: Session, a: Action)
    requires Sound(x) && Fits(x, a)
    ensures Sound(OnSession(x, a))
  {
    hide Placed, Exact;
    match a {
      case Insert(_, n) => InsertSound(x, n);
      case Remove(_, id) =>
        if id in x.streams {
          RemoveSound(x, id);
        }
      case Load(_, n) => LoadSound(x, n);
      case Swap(i, n) => SwapSound(x, i, n);
      case Draw => DrawSound(x);
      case Overflow => DrawSound(x);
      case SweepExpire => ClosedSound(x, OnSession(x, a));
      case Close(_) => ClosedSound(x, OnSession(x, a));
      case ClearMap(_) => ClosedSound(x, OnSession(x, a));
      case ClearCount(_) => ClearCountSound(x, a.i);
      case Touch(_, now) => TouchSound(x, now);
      case _ =>
    }
  }

  lemma ClearCountSound(x: Session, i: nat)
    requires Sound(x)
    ensures Sound(OnSession(x, ClearCount(i)))
  {
    if x.closed {
      ClosedSound(x, OnSession(x, ClearCount(i)));
    }
  }

  lemma TouchSound(x: Session, now: nat)
    requires Sound(x)
    ensures Sound(x.(lastUsed := now))
  {}

  lemma StaysUnplaced(x: Session, a: Action, n: nat)
    requires Unplaced(x, n) && Fits(x, a)
    ensures Unplaced(OnSession(x, a), n)
  {}

  // Steps of the pool

  lemma UpdateKeepsInv(s: State, i: nat, a: Action)
    requires Inv(s) && i < |s.sessions| && Fits(s.sessions[i], a)
    ensures Inv(Update(s, i, a))
  {
    hide Sound, Unplaced, OnSession, Fits;
    OnSessionSound(s.sessions[i], a);
    if s.lock.Chosen? && s.lock.phase.ToCount? && s.lock.i == i {
      StaysUnplaced(s.sessions[i], a, s.lock.phase.n);
    }
  }

  predicate ByOthers(a: Action) {
    a.Insert? || a.Remove? || a.Load? || a.Swap? || a.Close? || a.ClearMap? || a.ClearCount? || a.Touch?
  }

  lemma OthersUpdate(c: Config, s: State, a: Action)
    requires Enabled(c, s, a) && ByOthers(a)
    ensures a.i < |s.sessions| && Fits(s.sessions[a.i], a) && Step(c, s, a) == Update(s, a.i, a)
  {}

  /** Every action keeps the invariant. */
  lemma StepKeepsInv(c: Config, s: State, a: Action)
    requires Inv(s) && Enabled(c, s, a)
    ensures Inv(Step(c, s, a))
  {
    hide Sound, Unplaced, OnSession, CountIn, ScanEnabled, ScanStep, Fits;
    if ByOthers(a) {
      OthersUpdate(c, s, a);
      UpdateKeepsInv(s, a.i, a);
    } else if ScanEnabled(s, a) {
      ScanChooses(c, s, a);
    } else {
      HolderKeepsInv(c, s, a);
    }
  }

  lemma HolderKeepsInv(c: Config, s: State, a: Action)
    requires Inv(s) && Enabled(c, s, a) && !ByOthers(a) && !ScanEnabled(s, a)
    ensures Inv(Step(c, s, a))
  {
    hide Sound, Unplaced, OnSession, CountIn, ScanEnabled, ScanStep;
    match a {
      case Connect => NewSessionSound();
      case Count => CountInSound(s.sessions[s.lock.i], s.lock.phase.n);
      case Draw => DrawKeepsInv(s);
      case Overflow => UpdateKeepsInv(s, s.lock.i, a);
      case SweepExpire => UpdateKeepsInv(s, s.lock.victim, a);
      case _ =>
    }
  }

  lemma NewSessionSound()
    ensures Sound(NEW_SESSION)
  {}

  lemma DrawKeepsInv(s: State)
    requires Inv(s) && At(s, ToDraw)
    ensures Inv(Update(s, s.lock.i, Draw).(lock := s.lock.(phase := ToCount(s.sessions[s.lock.i].drawn + 1))))
  {
    var x := s.sessions[s.lock.i];
    assert OnSession(x, Draw) == x.(drawn := x.drawn + 1);
    DrawSound(x);
    hide Sound, Unplaced, OnSession;
  }

  lemma {:induction false} RunKeepsInv(c: Config, s: State, actions: seq<Action>)
    requires Inv(s) && Possible(c, s, actions)
    ensures Inv(After(c, s, actions))
    decreases |actions|
  {
    hide Inv, Step, Enabled;
    if actions != [] {
      StepKeepsInv(c, s, actions[0]);
      RunKeepsInv(c, Step(c, s, actions[0]), actions[1..]);
    }
  }

  // What the counter means

  /**
   Stream accounting: in every interleaving no stream is released twice, each is in one place at
   most, and while a session is open its counter is the number of streams reserved but not
   inserted, plus those in the map, plus those removed but not yet released, plus those overwritten.
   */
  lemma StreamAccounting(c: Config, actions: seq<Action>, i: nat)
    requires Possible(c, INITIAL, actions) && i < |After(c, INITIAL, actions).sessions|
    ensures var x := After(c, INITIAL, actions).sessions[i];
            && !x.releasedTwice
            && (!x.closed ==> x.active == |x.reserved| + |x.streams| + |x.releasing| + x.lost)
            && (forall id :: id in x.streams ==> Unmapped(x, x.streams[id]))
  {
    RunKeepsInv(c, INITIAL, actions);
    assert Sound(After(c, INITIAL, actions).sessions[i]);
  }

  /** Insertions into session `i` that find their id in the map. */
  function Overwrites(c: Config, s: State, actions: seq<Action>, i: nat): (n: nat)
    requires Possible(c, s, actions)
    decreases |actions|
  {
    if actions == [] then 0
    else
      var a := actions[0];
      (if a.Insert? && a.i == i && i < |s.sessions| && IdOf(a.n) in s.sessions[i].streams then 1 else 0)
      + Overwrites(c, Step(c, s, a), actions[1..], i)
  }

  function LostIn(s: State, i: nat): nat {
    if i < |s.sessions| then s.sessions[i].lost else 0
  }

  lemma StepLoses(c: Config, s: State, a: Action, i: nat)
    requires Enabled(c, s, a)
    ensures LostIn(Step(c, s, a), i) == LostIn(s, i) +
            if a.Insert? && a.i == i && i < |s.sessions| && IdOf(a.n) in s.sessions[i].streams then 1 else 0
  {
    hide ScanStep, ScanEnabled, IdOf;
  }

  lemma {:induction false} LostAreOverwritten(c: Config, s: State, actions: seq<Action>, i: nat)
    requires Possible(c, s, actions)
    ensures LostIn(After(c, s, actions), i) == LostIn(s, i) + Overwrites(c, s, actions, i)
    decreases |actions|
  {
    hide Step, Enabled, IdOf;
    if actions != [] {
      StepLoses(c, s, actions[0], i);
      LostAreOverwritten(c, Step(c, s, actions[0]), actions[1..], i);
    }
  }

  /**
   Exactly when the counter is right: an open session's counter is the number of streams it
   carries if and only if no insertion has found its id still in the map. Before more than 2^32
   draws none has.
   */
  lemma CounterExactlyWhen(c: Config, actions: seq<Action>, i: nat)
    requires Possible(c, INITIAL, actions) && i < |After(c, INITIAL, actions).sessions|
    ensures var x := After(c, INITIAL, actions).sessions[i];
            && (!x.closed ==> (x.active == Carried(x) <==> Overwrites(c, INITIAL, actions, i) == 0))
            && (x.drawn <= ID_SPACE ==> Overwrites(c, INITIAL, actions, i) == 0)
  {
    LostAreOverwritten(c, INITIAL, actions, i);
    RunKeepsInv(c, INITIAL, actions);
    assert Sound(After(c, INITIAL, actions).sessions[i]);
  }
}
