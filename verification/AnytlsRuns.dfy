/** Two runs of the pool that break what one might expect of it. */
module AnytlsRuns {
  import opened Bytes
  import opened AnytlsSelect
  import opened AnytlsPool
  import opened AnytlsAccounting

  /** At most one connection. */
  const ONE := Config(MaxConnections(1), 0)

  ghost predicate Leads(s: State, run: seq<Action>, t: State) {
    Possible(ONE, s, run) && After(ONE, s, run) == t
  }

  lemma Stay(s: State)
    ensures Leads(s, [], s)
  {}

  lemma Then(s: State, run: seq<Action>, t: State, a: Action)
    requires Leads(s, run, t) && Enabled(ONE, t, a)
    ensures Leads(s, run + [a], Step(ONE, t, a))
  {
    hide Step, Enabled;
    RunOne(ONE, t, a);
    RunAppend(ONE, s, run, [a]);
  }

  lemma Join(s: State, first: seq<Action>, t: State, second: seq<Action>, u: State)
    requires Leads(s, first, t) && Leads(t, second, u)
    ensures Leads(s, first + second, u)
  {
    RunAppend(ONE, s, first, second);
  }

  /** The only session, with its first stream in the map, after `d` draws. */
  function Held(d: nat, released: set<nat>): Session {
    Session(false, d, 1, 0, map[1 := 1], {}, map[], 0, released, false, 0)
  }

  function Alone(x: Session, lock: Lock): State {
    State([x], [0], lock)
  }

  // Single steps

  lemma OthersStep(x: Session, lock: Lock, a: Action)
    requires ByOthers(a) && a.i == 0 && Enabled(ONE, Alone(x, lock), a)
    ensures Step(ONE, Alone(x, lock), a) == Alone(OnSession(x, a), lock)
  {
    OthersUpdate(ONE, Alone(x, lock), a);
    hide OnSession, Enabled, Step;
    assert [x][0 := OnSession(x, a)] == [OnSession(x, a)];
  }

  lemma DrawStep(x: Session, seen: nat)
    requires IdOf(x.drawn + 1) != 0
    ensures Enabled(ONE, Alone(x, Chosen(0, seen, Pooled, ToDraw)), Draw)
    ensures Step(ONE, Alone(x, Chosen(0, seen, Pooled, ToDraw)), Draw)
         == Alone(x.(drawn := x.drawn + 1), Chosen(0, seen, Pooled, ToCount(x.drawn + 1)))
  {
    hide IdOf;
    assert [x][0 := x.(drawn := x.drawn + 1)] == [x.(drawn := x.drawn + 1)];
  }

  lemma CountStep(x: Session, seen: nat, n: nat)
    ensures Enabled(ONE, Alone(x, Chosen(0, seen, Pooled, ToCount(n))), Count)
    ensures Step(ONE, Alone(x, Chosen(0, seen, Pooled, ToCount(n))), Count) == Alone(CountIn(x, n), Free)
  {
    hide CountIn;
    assert [x][0 := CountIn(x, n)] == [CountIn(x, n)];
  }

  // Segments

  /** The first scan finds the only session busy. */
  lemma FindsBusy(x: Session) returns (run: seq<Action>)
    requires x.active == 1
    ensures Leads(Alone(x, Free), run, Alone(x, Rereading(Scan([1], [1], []), None)))
  {
    var s := Alone(x, Free);
    assert Counters(s) == [1];
    Stay(s);
    Then(s, [], s, LockToOpen);
    var looking := Looking(Scan([1], [], []), None);
    Then(s, [] + [LockToOpen], Alone(x, looking), ReadFirst);
    assert [] + [1] == [1];
    run := [] + [LockToOpen] + [ReadFirst];
    Then(s, run, Alone(x, Looking(Scan([1], [1], []), None)), EndFirst);
    run := run + [EndFirst];
  }

  /** If it is still busy at the second scan, it is chosen. */
  lemma ChoosesBusy(x: Session) returns (run: seq<Action>)
    requires x.active == 1 && !x.closed
    ensures Leads(Alone(x, Rereading(Scan([1], [1], []), None)), run, Alone(x, Chosen(0, 1, Pooled, ToDraw)))
  {
    var s := Alone(x, Rereading(Scan([1], [1], []), None));
    Stay(s);
    Then(s, [], s, ReadSecond);
    assert [] + [1] == [1];
    var reread := Alone(x, Rereading(Scan([1], [1], [1]), Some(Pick(0, 1))));
    Then(s, [] + [ReadSecond], reread, EndSecond);
    run := [] + [ReadSecond] + [EndSecond];
    Then(s, run, Alone(x, Chosen(0, 1, Pooled, ToCheck)), CheckOpen);
    run := run + [CheckOpen];
  }

  /** If it is idle by then, nothing is chosen. */
  lemma ChoosesNone(x: Session) returns (run: seq<Action>)
    requires x.active == 0
    ensures Leads(Alone(x, Rereading(Scan([1], [1], []), None)), run, Alone(x, Connecting(Scan([1], [1], [0]))))
  {
    var s := Alone(x, Rereading(Scan([1], [1], []), None));
    Stay(s);
    Then(s, [], s, ReadSecond);
    assert [] + [0] == [0];
    Then(s, [] + [ReadSecond], Alone(x, Rereading(Scan([1], [1], [0]), None)), EndSecond);
    run := [] + [ReadSecond] + [EndSecond];
  }

  /** A stream is drawn, counted in and inserted. */
  lemma Hands(x: Session, n: nat) returns (run: seq<Action>)
    requires n == x.drawn + 1 && IdOf(n) != 0 && n !in x.reserved
    ensures Leads(Alone(x, Chosen(0, 1, Pooled, ToDraw)), run, Alone(Inserted(CountIn(x.(drawn := n), n), n), Free))
  {
    var s, y := Alone(x, Chosen(0, 1, Pooled, ToDraw)), CountIn(x.(drawn := n), n);
    Stay(s);
    DrawStep(x, 1);
    Then(s, [], s, Draw);
    CountStep(x.(drawn := n), 1, n);
    Then(s, [] + [Draw], Alone(x.(drawn := n), Chosen(0, 1, Pooled, ToCount(n))), Count);
    run := [] + [Draw] + [Count];
    hide IdOf;
    OthersStep(y, Free, Insert(0, n));
    Then(s, run, Alone(y, Free), Insert(0, n));
    run := run + [Insert(0, n)];
  }

  lemma ReleaseSteps(x: Session, id: u32)
    requires id in x.streams && x.active > 0 && x.releasing == map[]
    ensures var n := x.streams[id];
            var y := x.(streams := x.streams - {id}, releasing := map[n := None]);
            var z := y.(releasing := map[n := Some(x.active)]);
            && OnSession(x, Remove(0, id)) == y
            && OnSession(y, Load(0, n)) == z
            && OnSession(z, Swap(0, n)) == Freed(z.(active := x.active - 1), n)
  {}

  /** A stream of the map is removed and released. */
  lemma Releases(x: Session, id: u32, lock: Lock) returns (run: seq<Action>)
    requires id in x.streams && x.active > 0 && x.releasing == map[]
    ensures Leads(Alone(x, lock), run, Alone(Freed(x.(streams := x.streams - {id}, releasing := map[x.streams[id] := Some(x.active)],
                                                      active := x.active - 1), x.streams[id]), lock))
  {
    var s, n := Alone(x, lock), x.streams[id];
    var y := x.(streams := x.streams - {id}, releasing := map[n := None]);
    var z := y.(releasing := map[n := Some(x.active)]);
    ReleaseSteps(x, id);
    hide OnSession, Leads;
    Stay(s);
    OthersStep(x, lock, Remove(0, id));
    Then(s, [], s, Remove(0, id));
    OthersStep(y, lock, Load(0, n));
    run := [] + [Remove(0, id)];
    Then(s, run, Alone(y, lock), Load(0, n));
    run := run + [Load(0, n)];
    OthersStep(z, lock, Swap(0, n));
    Then(s, run, Alone(z, lock), Swap(0, n));
    run := run + [Swap(0, n)];
  }

  const COUNTED := NEW_SESSION.(drawn := 1, active := 1, reserved := {1})

  /** A new session is connected, hands out its first stream and joins the pool. */
  lemma Connects(xs: seq<Session>, pool: seq<nat>, scan: Scan) returns (run: seq<Action>)
    ensures Leads(State(xs, pool, Connecting(scan)), run, State(xs + [COUNTED], pool + [|xs|], Free))
  {
    var s, i := State(xs, pool, Connecting(scan)), |xs|;
    var ys := xs + [NEW_SESSION];
    Stay(s);
    Then(s, [], s, Connect);
    Then(s, [] + [Connect], State(ys, pool, Chosen(i, 0, Fresh(scan), ToCheck)), CheckOpen);
    run := [] + [Connect] + [CheckOpen];
    var drawn := NEW_SESSION.(drawn := 1);
    Then(s, run, State(ys, pool, Chosen(i, 0, Fresh(scan), ToDraw)), Draw);
    run := run + [Draw];
    assert ys[i := drawn] == xs + [drawn];
    assert OnSession(NEW_SESSION, Draw) == drawn;
    Then(s, run, State(xs + [drawn], pool, Chosen(i, 0, Fresh(scan), ToCount(1))), Count);
    run := run + [Count];
    assert CountIn(drawn, 1) == COUNTED by {
      assert {} + {1} == {1};
    }
    assert (xs + [drawn])[i := COUNTED] == xs + [COUNTED];
  }

  lemma FirstStream() returns (run: seq<Action>)
    ensures Leads(INITIAL, run, Alone(Held(1, {}), Free))
  {
    var none := Scan([], [], []);
    Stay(INITIAL);
    assert Counters(INITIAL) == [];
    Then(INITIAL, [], INITIAL, LockToOpen);
    Then(INITIAL, [] + [LockToOpen], State([], [], Looking(none, None)), EndFirst);
    run := [] + [LockToOpen] + [EndFirst];
    var connects := Connects([], [], none);
    Join(INITIAL, run, State([], [], Connecting(none)), connects, State([] + [COUNTED], [] + [0], Free));
    run := run + connects;
    assert Alone(COUNTED, Free) == State([] + [COUNTED], [] + [0], Free);
    InsertFirst();
    Then(INITIAL, run, Alone(COUNTED, Free), Insert(0, 1));
    run := run + [Insert(0, 1)];
  }

  lemma InsertFirst()
    ensures Enabled(ONE, Alone(COUNTED, Free), Insert(0, 1))
    ensures Step(ONE, Alone(COUNTED, Free), Insert(0, 1)) == Alone(Held(1, {}), Free)
  {
    OthersStep(COUNTED, Free, Insert(0, 1));
    assert Inserted(COUNTED, 1) == Held(1, {}) by {
      assert {1} - {1} == {};
    }
  }

  // The connection limit

  /**
   With a limit of one connection, a pool of two: an opener finds the only session busy, its
   stream ends, and the second look finds it idle.
   */
  lemma LimitCanBeExceeded() returns (run: seq<Action>)
    ensures Possible(ONE, INITIAL, run) && |After(ONE, INITIAL, run).pool| == 2
  {
    run := FirstStream();
    var x, lock := Held(1, {}), Rereading(Scan([1], [1], []), None);
    var more := FindsBusy(x);
    Join(INITIAL, run, Alone(x, Free), more, Alone(x, lock));
    run := run + more;
    more := Releases(x, 1, lock);
    var idle := Freed(x.(streams := x.streams - {1}, releasing := map[1 := Some(1)], active := 0), 1);
    Join(INITIAL, run, Alone(x, lock), more, Alone(idle, lock));
    run := run + more;
    more := ChoosesNone(idle);
    var scan := Scan([1], [1], [0]);
    Join(INITIAL, run, Alone(idle, lock), more, Alone(idle, Connecting(scan)));
    run := run + more;
    more := Connects([idle], [0], scan);
    Join(INITIAL, run, Alone(idle, Connecting(scan)), more, State([idle] + [COUNTED], [0] + [1], Free));
    run := run + more;
  }

  // The id space

  ghost predicate UpTo(released: set<nat>, d: nat) {
    forall n :: n in released ==> n <= d
  }

  lemma ReleasedAgain(d: nat, released: set<nat>, n: nat)
    requires n == d + 1 && IdOf(n) > 1 && UpTo(released, d)
    ensures var y := Inserted(CountIn(Held(d, released).(drawn := n), n), n);
            && IdOf(n) in y.streams && y.streams[IdOf(n)] == n && y.active == 2 && y.releasing == map[]
            && Freed(y.(streams := y.streams - {IdOf(n)}, releasing := map[n := Some(2)], active := 1), n) == Held(n, released + {n})
    ensures UpTo(released + {n}, n)
  {
    var y := Inserted(CountIn(Held(d, released).(drawn := n), n), n);
    assert y.streams - {IdOf(n)} == map[1 := 1];
    assert y.reserved == {};
    assert map[n := Some(2)] - {n} == map[];
  }

  /** One more stream is opened and closed while the first stays open; id 0 is drawn and refused. */
  lemma Cycle(d: nat, released: set<nat>) returns (run: seq<Action>, more: set<nat>)
    requires IdOf(d + 1) != 1 && UpTo(released, d)
    ensures Leads(Alone(Held(d, released), Free), run, Alone(Held(d + 1, more), Free)) && UpTo(more, d + 1)
  {
    var x, n := Held(d, released), d + 1;
    var s := Alone(x, Free);
    var drawing := Alone(x, Chosen(0, 1, Pooled, ToDraw));
    run := Drawing(x);
    if IdOf(n) == 0 {
      more := released;
      Refuses(x);
      Then(s, run, drawing, Overflow);
      run := run + [Overflow];
      Then(s, run, Step(ONE, drawing, Overflow), Report(0));
      run := run + [Report(0)];
    } else {
      more := released + {n};
      ReleasedAgain(d, released, n);
      var y := Inserted(CountIn(x.(drawn := n), n), n);
      var hands := Hands(x, n);
      Join(s, run, drawing, hands, Alone(y, Free));
      var releases := Releases(y, IdOf(n), Free);
      Join(s, run + hands, Alone(y, Free), releases, Alone(Held(n, more), Free));
      run := run + hands + releases;
    }
  }

  lemma Drawing(x: Session) returns (run: seq<Action>)
    requires x.active == 1 && !x.closed
    ensures Leads(Alone(x, Free), run, Alone(x, Chosen(0, 1, Pooled, ToDraw)))
  {
    var lock := Rereading(Scan([1], [1], []), None);
    run := FindsBusy(x);
    var chooses := ChoosesBusy(x);
    Join(Alone(x, Free), run, Alone(x, lock), chooses, Alone(x, Chosen(0, 1, Pooled, ToDraw)));
    run := run + chooses;
  }

  lemma Refuses(x: Session)
    requires IdOf(x.drawn + 1) == 0 && !x.closed
    ensures Enabled(ONE, Alone(x, Chosen(0, 1, Pooled, ToDraw)), Overflow)
    ensures var t := Step(ONE, Alone(x, Chosen(0, 1, Pooled, ToDraw)), Overflow);
            Enabled(ONE, t, Report(0)) && Step(ONE, t, Report(0)) == Alone(x.(drawn := x.drawn + 1), Free)
  {
    hide IdOf;
    assert [x][0 := x.(drawn := x.drawn + 1)] == [x.(drawn := x.drawn + 1)];
  }

  lemma {:induction false} Cycles(d: nat) returns (run: seq<Action>, released: set<nat>)
    requires 1 <= d <= ID_SPACE
    ensures Leads(INITIAL, run, Alone(Held(d, released), Free)) && UpTo(released, d)
    decreases d
  {
    if d == 1 {
      released := {};
      run := FirstStream();
    } else {
      var before;
      run, before := Cycles(d - 1);
      var cycle;
      cycle, released := Cycle(d - 1, before);
      Join(INITIAL, run, Alone(Held(d - 1, before), Free), cycle, Alone(Held(d, released), Free));
      run := run + cycle;
    }
  }

  /**
   After 2^32 draws an open session can count two streams and carry one: the first stream is still
   in the map when its id comes round again.
   */
  lemma CounterCanBreak() returns (run: seq<Action>)
    ensures Possible(ONE, INITIAL, run) && |After(ONE, INITIAL, run).sessions| == 1
    ensures var x := After(ONE, INITIAL, run).sessions[0];
            !x.closed && x.drawn == ID_SPACE + 1 && x.active == 2 && Carried(x) == 1
  {
    var released;
    run, released := Cycles(ID_SPACE);
    var x, n := Held(ID_SPACE, released), ID_SPACE + 1;
    var drawing := Drawing(x);
    Join(INITIAL, run, Alone(x, Free), drawing, Alone(x, Chosen(0, 1, Pooled, ToDraw)));
    run := run + drawing;
    var hands := Hands(x, n);
    var y := Inserted(CountIn(x.(drawn := n), n), n);
    hide Inserted, CountIn;
    Join(INITIAL, run, Alone(x, Chosen(0, 1, Pooled, ToDraw)), hands, Alone(y, Free));
    run := run + hands;
    OverwritesFirst(released);
  }

  lemma OverwritesFirst(released: set<nat>)
    ensures var n := ID_SPACE + 1;
            var y := Inserted(CountIn(Held(ID_SPACE, released).(drawn := n), n), n);
            !y.closed && y.drawn == n && y.active == 2 && Carried(y) == 1
  {
    var n := ID_SPACE + 1;
    var y := Inserted(CountIn(Held(ID_SPACE, released).(drawn := n), n), n);
    assert y.streams == map[1 := n] && y.reserved == {};
  }
}
