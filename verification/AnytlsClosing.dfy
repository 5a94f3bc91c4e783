/** Expiry and closing of pooled sessions, over every interleaving of the pool's steps. */
module AnytlsClosing {
  import opened AnytlsPool
  import opened AnytlsAccounting

  // Expiry

  ghost predicate VictimIdle(s: State) {
    && (s.lock.Expiring? ==> s.lock.victim < |s.sessions| && s.sessions[s.lock.victim].active == 0)
    && (s.lock.Sweeping? && s.lock.found == SeenIdle && s.lock.todo != [] && s.lock.todo[0] < |s.sessions| ==>
          s.sessions[s.lock.todo[0]].active == 0)
  }

  lemma StepKeepsVictimIdle(c: Config, s: State, a: Action)
    requires Enabled(c, s, a) && VictimIdle(s)
    ensures VictimIdle(Step(c, s, a))
  {
    hide OnSession, ScanStep, ScanEnabled;
    forall x: Session ensures OnSession(x, a).active <= x.active {
      OnlyCountAdds(x, a);
    }
    if ScanEnabled(s, a) {
      ScanChooses(c, s, a);
    }
  }

  lemma {:induction false} RunKeepsVictimIdle(c: Config, s: State, actions: seq<Action>)
    requires VictimIdle(s) && Possible(c, s, actions)
    ensures VictimIdle(After(c, s, actions))
    decreases |actions|
  {
    hide VictimIdle, Step, Enabled;
    if actions != [] {
      StepKeepsVictimIdle(c, s, actions[0]);
      RunKeepsVictimIdle(c, Step(c, s, actions[0]), actions[1..]);
    }
  }

  /** Expiry never closes a session that is still open and has a stream in any stage of its life, and what it closes hands out no more. */
  lemma ExpiryIsSafe(c: Config, actions: seq<Action>)
    requires Possible(c, INITIAL, actions)
    requires After(c, INITIAL, actions).lock.Expiring?
    ensures var s := After(c, INITIAL, actions);
            && s.lock.victim < |s.sessions|
            && var x := s.sessions[s.lock.victim];
               !x.closed ==> x.streams == map[] && x.reserved == {} && x.releasing == map[]
    ensures var s := After(c, INITIAL, actions);
            ShutOut(Step(c, s, SweepExpire), s.lock.victim)
  {
    RunKeepsInv(c, INITIAL, actions);
    RunKeepsVictimIdle(c, INITIAL, actions);
    var s := After(c, INITIAL, actions);
    assert Sound(s.sessions[s.lock.victim]);
  }

  // Closed sessions

  /** Session `i` is closed and no reservation has already passed its check of the flag. */
  ghost predicate ShutOut(s: State, i: nat) {
    i < |s.sessions| && s.sessions[i].closed && !PastCheck(s, i)
  }

  ghost predicate PastCheck(s: State, i: nat) {
    s.lock.Chosen? && s.lock.i == i && (s.lock.phase.ToDraw? || s.lock.phase.ToCount?)
  }

  /** No stream was drawn from session `i` or newly reserved there. */
  ghost predicate HandsOutNothing(s: State, t: State, i: nat) {
    && i < |s.sessions| && i < |t.sessions|
    && t.sessions[i].drawn == s.sessions[i].drawn && t.sessions[i].reserved <= s.sessions[i].reserved
  }

  lemma StepKeepsShutOut(c: Config, s: State, a: Action, i: nat)
    requires Enabled(c, s, a) && ShutOut(s, i)
    ensures ShutOut(Step(c, s, a), i) && HandsOutNothing(s, Step(c, s, a), i)
  {
    hide OnSession, ScanStep, ScanEnabled;
    forall x: Session
      ensures a != Draw && a != Overflow ==> OnSession(x, a).drawn == x.drawn
      ensures x.closed ==> OnSession(x, a).closed
      ensures OnSession(x, a).reserved <= x.reserved
    {
      OnlyCountAdds(x, a);
    }
    if ScanEnabled(s, a) {
      ScanChooses(c, s, a);
    }
  }

  /** Once a session is closed with no reservation past its check, it never hands out another stream. */
  lemma {:induction false} ClosedHandsOutNothing(c: Config, s: State, actions: seq<Action>, i: nat)
    requires ShutOut(s, i) && Possible(c, s, actions)
    ensures ShutOut(After(c, s, actions), i) && HandsOutNothing(s, After(c, s, actions), i)
    decreases |actions|
  {
    assert i < |s.sessions|;
    hide ShutOut, Step, Enabled;
    if actions != [] {
      StepKeepsShutOut(c, s, actions[0], i);
      ClosedHandsOutNothing(c, Step(c, s, actions[0]), actions[1..], i);
    }
  }

  /**
   The condition is needed: a reservation that is past its check when its session is closed, unless
   its next id is refused, still hands out a stream, of a closed session.
   */
  lemma CloseMayOvertakeReservation(c: Config, s: State) returns (actions: seq<Action>)
    requires s.lock.Chosen? && s.lock.i < |s.sessions| && PastCheck(s, s.lock.i)
    requires s.lock.phase.ToDraw? ==> IdOf(s.sessions[s.lock.i].drawn + 1) != 0
    ensures Possible(c, s, [Close(s.lock.i)] + actions)
    ensures var i, t := s.lock.i, After(c, s, [Close(s.lock.i)] + actions);
            && i < |t.sessions| && t.sessions[i].closed
            && (if s.lock.phase.ToDraw? then s.sessions[i].drawn + 1 else s.lock.phase.n) in t.sessions[i].reserved
  {
    var i := s.lock.i;
    var closed := Step(c, s, Close(i));
    RunOne(c, s, Close(i));
    assert closed.sessions[i] == s.sessions[i].(closed := true) && closed.lock == s.lock;
    if s.lock.phase.ToDraw? {
      actions := [Draw] + [Count];
      DrawsThenCounts(c, closed);
    } else {
      actions := [Count];
      RunOne(c, closed, Count);
    }
    RunAppend(c, s, [Close(i)], actions);
  }

  /** Clearing a closed session leaves it without streams and with its counter at zero; one that has none is left alone. */
  lemma ClearEmpties(c: Config, s: State, i: nat)
    requires i < |s.sessions| && s.sessions[i].closed
    ensures s.sessions[i].streams == map[] ==> Possible(c, s, [ClearMap(i)]) && After(c, s, [ClearMap(i)]) == s
    ensures s.sessions[i].streams != map[] ==>
              && Possible(c, s, [ClearMap(i)] + [ClearCount(i)])
              && After(c, s, [ClearMap(i)] + [ClearCount(i)]) ==
                 s.(sessions := s.sessions[i := s.sessions[i].(streams := map[], active := 0)])
  {
    RunOne(c, s, ClearMap(i));
    var t := Step(c, s, ClearMap(i));
    if s.sessions[i].streams == map[] {
      assert t.sessions == s.sessions;
    } else {
      RunOne(c, t, ClearCount(i));
      RunAppend(c, s, [ClearMap(i)], [ClearCount(i)]);
    }
  }

  lemma DrawsThenCounts(c: Config, s: State)
    requires At(s, ToDraw) && IdOf(s.sessions[s.lock.i].drawn + 1) != 0
    ensures Possible(c, s, [Draw] + [Count])
    ensures var i, t := s.lock.i, After(c, s, [Draw] + [Count]);
            i < |t.sessions| && t.sessions[i] == CountIn(s.sessions[i].(drawn := s.sessions[i].drawn + 1), s.sessions[i].drawn + 1)
  {
    hide IdOf, CountIn;
    RunOne(c, s, Draw);
    RunOne(c, Step(c, s, Draw), Count);
    RunAppend(c, s, [Draw], [Count]);
  }
}
