/**
 UDP over a whole TUIC connection: what the relays are offered, in terms of the commands and
 datagrams the client has sent and of the assembler, whenever authentication came.
 */
module TuicUdp {
  import opened Bytes
  import opened TuicCodec
  import opened TuicAssembler
  import opened TuicEndToEnd
  import opened TuicConnection
  import TuicUdpSend

  // What the client has sent

  /** A complete command or a datagram that concerns UDP, as bytes. */
  datatype Raw = Raw(mode: UdpMode, bytes: seq<byte>, now: nat)

  predicate AfterAuth(c: Conn, id: nat) {
    id in c.uni && c.uni[id].AuthDone?
  }

  /** What a read completes: a datagram at once, a command with the FIN of its stream. */
  function RawOf(c: Conn, e: Arrival): (r: seq<Raw>) {
    match e
    case Received(dgram, now) => if DeferredDatagram(dgram) then [Raw(Native, dgram, now)] else []
    case Read(id, data, fin, now) =>
      if Unidirectional(id) && fin && !AfterAuth(c, id) && DeferredCommand(CommandWith(c.uni, id, data))
      then [Raw(Quic, CommandWith(c.uni, id, data), now)]
      else []
  }

  /** All that a run of the connection completes, in order. */
  function RawsOf(c: Conn, users: seq<User>, deadline: nat, events: seq<Arrival>): (r: seq<Raw>)
    requires ConnRun(c, users, deadline, events).Ok?
    decreases |events|
  {
    if events == [] then []
    else RawOf(c, events[0]) + RawsOf(ConnStep(c, users, deadline, events[0]).value, users, deadline, events[1..])
  }

  // What it means

  datatype Input = Push(mode: UdpMode, packet: Packet, now: nat) | Drop(assoc: u16)

  function InputOf(r: Raw): (i: Option<Input>) {
    if |r.bytes| >= 2 && r.bytes[1] == CMD_PACKET then
      match ParsePacket(r.bytes)
      case Ok(p) => Some(Push(r.mode, p, r.now))
      case Err => None
    else
      match ParseHeader(r.bytes)
      case Done(Dissociate(id), _) => Some(Drop(id))
      case _ => None
  }

  predicate WellFormed(raws: seq<Raw>) {
    forall i :: 0 <= i < |raws| ==> InputOf(raws[i]).Some?
  }

  function Inputs(raws: seq<Raw>): (r: seq<Input>)
    requires WellFormed(raws)
    ensures |r| == |raws|
  {
    if raws == [] then [] else [InputOf(raws[0]).value] + Inputs(raws[1..])
  }

  /** The pushes among them, for the assembler. */
  function Events(inputs: seq<Input>): (r: seq<Event>) {
    if inputs == [] then []
    else
      match inputs[0]
      case Push(_, p, now) => [PushEvent(p, now)] + Events(inputs[1..])
      case Drop(_) => Events(inputs[1..])
  }

  /** What the relays see, given the outcome of each push: a delivered packet is offered in the mode of the push that completed it. */
  function Acts(inputs: seq<Input>, outcomes: seq<Outcome>): (r: seq<UdpAct>) {
    if inputs == [] then []
    else
      match inputs[0]
      case Drop(a) => [Dropped(a)] + Acts(inputs[1..], outcomes)
      case Push(mode, _, _) =>
        if outcomes == [] then []
        else
          (match outcomes[0].1 { case Ok(Some(whole)) => [Offer(mode, whole)] case _ => [] }) + Acts(inputs[1..], outcomes[1..])
  }

  /** All pushes are accepted by the assembler, and what was done is what their outcomes call for. */
  ghost predicate Served(u: UdpView, raws: seq<Raw>, v: UdpView) {
    WellFormed(raws) &&
    var events := Events(Inputs(raws));
    && v.groups == Final(u.groups, events)
    && v.log == u.log + Acts(Inputs(raws), Run(u.groups, events))
  }

  // Composition

  lemma {:induction false} InputsAppend(a: seq<Raw>, b: seq<Raw>)
    requires WellFormed(a) && WellFormed(b)
    ensures WellFormed(a + b) && Inputs(a + b) == Inputs(a) + Inputs(b)
  {
    hide InputOf;
    if a == [] {
      assert a + b == b;
    } else {
      assert (a + b)[1..] == a[1..] + b;
      InputsAppend(a[1..], b);
    }
  }

  lemma {:induction false} EventsAppend(a: seq<Input>, b: seq<Input>)
    ensures Events(a + b) == Events(a) + Events(b)
  {
    if a == [] {
      assert a + b == b;
    } else {
      assert (a + b)[1..] == a[1..] + b;
      EventsAppend(a[1..], b);
    }
  }

  lemma {:induction false} RunLength(m: Groups, inputs: seq<Input>)
    ensures |Run(m, Events(inputs))| == |Events(inputs)|
    decreases |inputs|
  {
    hide Pushed;
    if inputs != [] {
      if inputs[0].Push? {
        assert Events(inputs)[1..] == Events(inputs[1..]);
        RunLength(Pushed(m, inputs[0].packet, inputs[0].now).0, inputs[1..]);
      } else {
        RunLength(m, inputs[1..]);
      }
    }
  }

  lemma {:induction false} ActsAppend(a: seq<Input>, b: seq<Input>, x: seq<Outcome>, y: seq<Outcome>)
    requires |x| == |Events(a)|
    ensures Acts(a + b, x + y) == Acts(a, x) + Acts(b, y)
  {
    if a == [] {
      assert a + b == b && x + y == y;
    } else {
      assert (a + b)[1..] == a[1..] + b;
      if a[0].Push? {
        assert (x + y)[1..] == x[1..] + y && (x + y)[0] == x[0];
        ActsAppend(a[1..], b, x[1..], y);
      } else {
        ActsAppend(a[1..], b, x, y);
      }
    }
  }

  lemma ServedThen(u: UdpView, a: seq<Raw>, v: UdpView, b: seq<Raw>, w: UdpView)
    requires Served(u, a, v) && Served(v, b, w)
    ensures Served(u, a + b, w)
  {
    hide WellFormed, Inputs, Events, Acts, Run, Final;
    InputsAppend(a, b);
    var ia, ib := Inputs(a), Inputs(b);
    EventsAppend(ia, ib);
    RunLength(u.groups, ia);
    RunAppend(u.groups, Events(ia), Events(ib));
    FinalAppend(u.groups, Events(ia), Events(ib));
    ActsAppend(ia, ib, Run(u.groups, Events(ia)), Run(v.groups, Events(ib)));
    Associate(u.log, Acts(ia, Run(u.groups, Events(ia))), Acts(ib, Run(v.groups, Events(ib))));
  }

  lemma NothingServed(u: UdpView)
    ensures Served(u, [], u)
  {
    assert u.log + [] == u.log;
  }

  // One command or datagram

  /** The assembler refuses a push, or its packet belongs to an association bound to the other mode. */
  ghost predicate Refused(u: UdpView, r: Raw) {
    match InputOf(r)
    case None => true
    case Some(Drop(_)) => false
    case Some(Push(mode, p, now)) =>
      match Pushed(u.groups, p, now).1
      case Err => true
      case Ok(None) => false
      case Ok(Some(whole)) => Bound(u.log, whole.assocId).Some? && Bound(u.log, whole.assocId) != Some(mode)
  }

  /** The mode an association is bound to by what was done: that of the last offer since it last ended. */
  function Bound(log: seq<UdpAct>, a: u16): (r: Option<UdpMode>) {
    if log == [] then None
    else
      match log[|log| - 1]
      case Offer(mode, p) => if p.assocId == a then Some(mode) else Bound(log[..|log| - 1], a)
      case Dropped(b) => if b == a then None else Bound(log[..|log| - 1], a)
  }

  /** Until it ends, an association is only offered packets of one mode. */
  predicate OneMode(log: seq<UdpAct>) {
    forall i :: 0 <= i < |log| && log[i].Offer? ==>
      Bound(log[..i], log[i].packet.assocId).None? || Bound(log[..i], log[i].packet.assocId) == Some(log[i].mode)
  }

  ghost predicate ModesAreBound(u: UdpView) {
    && OneMode(u.log)
    && forall a :: (if a in u.modes then Some(u.modes[a]) else None) == Bound(u.log, a)
  }

  lemma OneModeSnoc(log: seq<UdpAct>, act: UdpAct)
    requires OneMode(log)
    requires act.Offer? ==> Bound(log, act.packet.assocId).None? || Bound(log, act.packet.assocId) == Some(act.mode)
    ensures OneMode(log + [act])
  {
    var all := log + [act];
    forall i | 0 <= i < |all| && all[i].Offer?
      ensures Bound(all[..i], all[i].packet.assocId).None? || Bound(all[..i], all[i].packet.assocId) == Some(all[i].mode)
    {
      assert all[..i] == log[..i];
      assert i == |log| ==> log[..i] == log;
    }
  }

  lemma BoundSnoc(log: seq<UdpAct>, act: UdpAct, a: u16)
    ensures Bound(log + [act], a) ==
            match act
            case Offer(mode, p) => if p.assocId == a then Some(mode) else Bound(log, a)
            case Dropped(b) => if b == a then None else Bound(log, a)
  {
    assert (log + [act])[..|log|] == log;
  }

  /** The step of the connection for one command or datagram. */
  function RawStep(u: UdpView, r: Raw): (v: Result<UdpView>) {
    if r.mode.Native? then PacketStep(u, r.bytes, Native, r.now) else UdpCommandStep(u, r.bytes, r.now)
  }

  predicate Proper(r: Raw) {
    if r.mode.Native? then DeferredDatagram(r.bytes) else DeferredCommand(r.bytes)
  }

  lemma OneServed(u: UdpView, r: Raw, i: Input, v: UdpView)
    requires InputOf(r) == Some(i)
    requires match i
             case Drop(a) => v.groups == u.groups && v.log == u.log + [Dropped(a)]
             case Push(mode, p, now) =>
               && v.groups == Pushed(u.groups, p, now).0
               && v.log == u.log + (match Pushed(u.groups, p, now).1 { case Ok(Some(whole)) => [Offer(mode, whole)] case _ => [] })
    ensures Served(u, [r], v)
  {
    hide Pushed, InputOf;
    assert [r][1..] == [] && [i][1..] == [];
    assert Inputs([r]) == [i];
    match i {
      case Drop(a) =>
        assert Events([i]) == [];
        assert Acts([i], []) == [Dropped(a)];
      case Push(mode, p, now) =>
        var outcome: Outcome := (KeyOf(p), Pushed(u.groups, p, now).1);
        assert Events([i]) == [PushEvent(p, now)];
        FirstPush(u.groups, [PushEvent(p, now)]);
        assert [PushEvent(p, now)][1..] == [] && [outcome][1..] == [];
        assert Run(u.groups, [PushEvent(p, now)]) == [outcome];
        assert Acts([i], [outcome]) == (match outcome.1 { case Ok(Some(whole)) => [Offer(mode, whole)] case _ => [] });
    }
  }

  lemma ActBinds(u: UdpView, act: UdpAct, v: UdpView)
    requires ModesAreBound(u) && v.log == u.log + [act]
    requires match act
             case Offer(mode, p) =>
               && (p.assocId in u.modes ==> u.modes[p.assocId] == mode)
               && v.modes == u.modes[p.assocId := mode]
             case Dropped(a) => v.modes == u.modes - {a}
    ensures ModesAreBound(v)
  {
    hide OneMode, Bound;
    if act.Offer? {
      assert (if act.packet.assocId in u.modes then Some(u.modes[act.packet.assocId]) else None) == Bound(u.log, act.packet.assocId);
    }
    OneModeSnoc(u.log, act);
    forall a ensures (if a in v.modes then Some(v.modes[a]) else None) == Bound(v.log, a) {
      assert (if a in u.modes then Some(u.modes[a]) else None) == Bound(u.log, a);
      BoundSnoc(u.log, act, a);
    }
  }

  lemma PacketServed(u: UdpView, r: Raw)
    requires DeferredDatagram(r.bytes) && ModesAreBound(u)
    ensures var step := PacketStep(u, r.bytes, r.mode, r.now);
            && (step.Err? <==> Refused(u, r))
            && (step.Ok? ==> Served(u, [r], step.value) && ModesAreBound(step.value))
  {
    hide ParsePacket, Pushed, Served, Bound, OneMode;
    var parsed, step := ParsePacket(r.bytes), PacketStep(u, r.bytes, r.mode, r.now);
    if parsed.Ok? {
      var outcome := Pushed(u.groups, parsed.value, r.now).1;
      if outcome.Ok? && outcome.value.Some? {
        var whole := outcome.value.value;
        assert (if whole.assocId in u.modes then Some(u.modes[whole.assocId]) else None) == Bound(u.log, whole.assocId);
        if step.Ok? {
          hide ModesAreBound;
          OneServed(u, r, InputOf(r).value, step.value);
          ActBinds(u, Offer(r.mode, whole), step.value);
        }
      } else if step.Ok? {
        assert u.log + [] == u.log;
        OneServed(u, r, InputOf(r).value, step.value);
      }
    }
  }

  lemma DissociateServed(u: UdpView, r: Raw)
    requires DeferredCommand(r.bytes) && r.bytes[1] != CMD_PACKET && ModesAreBound(u)
    ensures var step := DissociateStep(u, r.bytes);
            && (step.Err? <==> Refused(u, r))
            && (step.Ok? ==> Served(u, [r], step.value) && ModesAreBound(step.value))
  {
    hide ParseHeader, Served, ModesAreBound;
    var step := DissociateStep(u, r.bytes);
    if step.Ok? {
      OneServed(u, r, InputOf(r).value, step.value);
      ActBinds(u, Dropped(InputOf(r).value.assoc), step.value);
    }
  }

  lemma RawServed(u: UdpView, r: Raw)
    requires Proper(r) && ModesAreBound(u)
    ensures RawStep(u, r).Err? <==> Refused(u, r)
    ensures RawStep(u, r).Ok? ==> Served(u, [r], RawStep(u, r).value) && ModesAreBound(RawStep(u, r).value)
  {
    hide PacketStep, DissociateStep, Refused, Served, ModesAreBound;
    if r.bytes[1] == CMD_PACKET {
      PacketServed(u, r);
    } else {
      DissociateServed(u, r);
    }
  }

  // Live

  /** Once authenticated, nothing is retained. */
  predicate Replayed(c: Conn) {
    c.authenticated ==> c.commands == [] && c.datagrams == []
  }

  lemma LiveCommand(c: Conn, users: seq<User>, deadline: nat, command: seq<byte>, now: nat)
    requires c.authenticated && Replayed(c) && DeferredCommand(command)
    ensures var r := RawStep(c.udp, Raw(Quic, command, now));
            CommandStep(c, users, deadline, command, now) == match r { case Err => Err case Ok(u) => Ok(c.(udp := u)) }
  {
    hide UdpCommandStep;
  }

  lemma LiveAuth(c: Conn, users: seq<User>, deadline: nat, command: seq<byte>, now: nat)
    requires c.authenticated && Replayed(c) && !DeferredCommand(command) && CommandStep(c, users, deadline, command, now).Ok?
    ensures CommandStep(c, users, deadline, command, now).value.udp == c.udp
    ensures var c' := CommandStep(c, users, deadline, command, now).value; c'.authenticated && Replayed(c')
  {
    hide Identify;
  }

  lemma LiveUni(c: Conn, users: seq<User>, deadline: nat, id: nat, data: seq<byte>, fin: bool, now: nat)
    requires c.authenticated && Replayed(c) && Unidirectional(id)
    ensures var raws, r := RawOf(c, Read(id, data, fin, now)), UniStep(c, users, deadline, id, data, fin, now);
            && (raws != [] ==> (r.Ok? <==> RawStep(c.udp, raws[0]).Ok?))
            && (r.Ok? ==> r.value.authenticated && Replayed(r.value))
            && (r.Ok? ==> if raws == [] then r.value.udp == c.udp else RawStep(c.udp, raws[0]) == Ok(r.value.udp))
  {
    hide CommandStep, RawStep;
    var command := CommandWith(c.uni, id, data);
    var taken := c.(uni := if fin then c.uni - {id} else c.uni[id := AuthDone]);
    if DeferredCommand(command) {
      LiveCommand(taken, users, deadline, command, now);
    } else if CommandStep(taken, users, deadline, command, now).Ok? {
      LiveAuth(taken, users, deadline, command, now);
    }
  }

  /** One read of an authenticated connection. */
  lemma LiveStep(c: Conn, users: seq<User>, deadline: nat, e: Arrival)
    requires c.authenticated && Replayed(c)
    ensures var raws, r := RawOf(c, e), ConnStep(c, users, deadline, e);
            && (raws != [] ==> |raws| == 1 && Proper(raws[0]) && (r.Ok? <==> RawStep(c.udp, raws[0]).Ok?))
            && (r.Ok? ==> r.value.authenticated && Replayed(r.value))
            && (r.Ok? ==> if raws == [] then r.value.udp == c.udp else RawStep(c.udp, raws[0]) == Ok(r.value.udp))
  {
    hide UniStep, PacketStep, UdpCommandStep;
    if e.Read? && Unidirectional(e.id) {
      LiveUni(c, users, deadline, e.id, e.data, e.fin, e.now);
    }
  }

  /** A read that completes a command or a datagram ends the connection exactly if that is refused. */
  lemma LiveFailsExactlyWhen(c: Conn, users: seq<User>, deadline: nat, e: Arrival)
    requires c.authenticated && Replayed(c) && ModesAreBound(c.udp) && RawOf(c, e) != []
    ensures ConnStep(c, users, deadline, e).Err? <==> Refused(c.udp, RawOf(c, e)[0])
  {
    hide ConnStep, RawStep, Refused, ModesAreBound;
    LiveStep(c, users, deadline, e);
    RawServed(c.udp, RawOf(c, e)[0]);
  }

  /**
   Live UDP: over any surviving run of an authenticated connection the relays have been offered exactly
   the packets that the assembler delivers when it is pushed all that the run completed, in order and in
   the mode each came in, and associations are bound to the modes of what they were offered.
   */
  lemma {:induction false} LiveUdp(c: Conn, users: seq<User>, deadline: nat, events: seq<Arrival>)
    requires c.authenticated && Replayed(c) && ModesAreBound(c.udp) && ConnRun(c, users, deadline, events).Ok?
    ensures var c' := ConnRun(c, users, deadline, events).value;
            && c'.authenticated && Replayed(c') && ModesAreBound(c'.udp)
            && Served(c.udp, RawsOf(c, users, deadline, events), c'.udp)
    decreases |events|
  {
    hide ConnStep, RawStep, RawOf, Served, ModesAreBound;
    if events == [] {
      NothingServed(c.udp);
    } else {
      var c1 := ConnStep(c, users, deadline, events[0]).value;
      LiveStep(c, users, deadline, events[0]);
      var raws := RawOf(c, events[0]);
      if raws == [] {
        NothingServed(c.udp);
      } else {
        assert raws == [raws[0]];
        RawServed(c.udp, raws[0]);
      }
      LiveUdp(c1, users, deadline, events[1..]);
      ServedThen(c.udp, raws, c1.udp, RawsOf(c1, users, deadline, events[1..]),
                 ConnRun(c1, users, deadline, events[1..]).value.udp);
    }
  }

  // Deferred

  function BytesOf(raws: seq<Raw>, mode: UdpMode): (r: seq<seq<byte>>) {
    if raws == [] then []
    else if raws[0].mode == mode then [raws[0].bytes] + BytesOf(raws[1..], mode)
    else BytesOf(raws[1..], mode)
  }

  lemma {:induction false} BytesOfAppend(a: seq<Raw>, b: seq<Raw>, mode: UdpMode)
    ensures BytesOf(a + b, mode) == BytesOf(a, mode) + BytesOf(b, mode)
  {
    if a == [] {
      assert a + b == b;
    } else {
      assert (a + b)[1..] == a[1..] + b;
      BytesOfAppend(a[1..], b, mode);
    }
  }

  lemma RetainStep(c: Conn, users: seq<User>, deadline: nat, e: Arrival)
    requires !c.authenticated && ConnStep(c, users, deadline, e).Ok? && !ConnStep(c, users, deadline, e).value.authenticated
    ensures var c' := ConnStep(c, users, deadline, e).value;
            && c'.commands == c.commands + BytesOf(RawOf(c, e), Quic)
            && c'.datagrams == c.datagrams + BytesOf(RawOf(c, e), Native)
            && c'.udp == c.udp
  {
    hide Identify, UdpRun, AllReplay;
    var raws := RawOf(c, e);
    assert |raws| == 1 ==> raws[1..] == [] && BytesOf(raws, raws[0].mode) == [raws[0].bytes];
    assert c.commands + [] == c.commands && c.datagrams + [] == c.datagrams;
  }

  /** Before authentication all that a run completes is retained, commands and datagrams each in order, and nothing else. */
  lemma {:induction false} RetainedInOrder(c: Conn, users: seq<User>, deadline: nat, events: seq<Arrival>)
    requires !c.authenticated && ConnRun(c, users, deadline, events).Ok? && !ConnRun(c, users, deadline, events).value.authenticated
    ensures var c', raws := ConnRun(c, users, deadline, events).value, RawsOf(c, users, deadline, events);
            && c'.commands == c.commands + BytesOf(raws, Quic)
            && c'.datagrams == c.datagrams + BytesOf(raws, Native)
            && c'.udp == c.udp
    decreases |events|
  {
    hide ConnStep, RawOf;
    if events == [] {
      assert c.commands + [] == c.commands && c.datagrams + [] == c.datagrams;
    } else {
      var c1 := ConnStep(c, users, deadline, events[0]).value;
      AuthenticatedForGood(c1, users, deadline, events[1..]);
      RetainStep(c, users, deadline, events[0]);
      RetainedInOrder(c1, users, deadline, events[1..]);
      var first, later := RawOf(c, events[0]), RawsOf(c1, users, deadline, events[1..]);
      BytesOfAppend(first, later, Quic);
      BytesOfAppend(first, later, Native);
      Associate(c.commands, BytesOf(first, Quic), BytesOf(later, Quic));
      Associate(c.datagrams, BytesOf(first, Native), BytesOf(later, Native));
    }
  }

  lemma {:induction false} AuthenticatedForGood(c: Conn, users: seq<User>, deadline: nat, events: seq<Arrival>)
    ensures c.authenticated && ConnRun(c, users, deadline, events).Ok? ==> ConnRun(c, users, deadline, events).value.authenticated
    decreases |events|
  {
    hide Identify, UdpRun, AllReplay, PacketStep, UdpCommandStep;
    if events != [] && ConnStep(c, users, deadline, events[0]).Ok? {
      AuthenticatedForGood(ConnStep(c, users, deadline, events[0]).value, users, deadline, events[1..]);
    }
  }

  /** Bytes as commands or datagrams that all come at once. */
  function AtOnce(mode: UdpMode, bytes: seq<seq<byte>>, now: nat): (r: seq<Raw>)
    ensures |r| == |bytes|
  {
    if bytes == [] then [] else [Raw(mode, bytes[0], now)] + AtOnce(mode, bytes[1..], now)
  }

  predicate AllProper(mode: UdpMode, bytes: seq<seq<byte>>) {
    forall i :: 0 <= i < |bytes| ==> Proper(Raw(mode, bytes[i], 0))
  }

  lemma {:induction false} DatagramsServed(u: UdpView, datagrams: seq<seq<byte>>, now: nat)
    requires AllProper(Native, datagrams) && ModesAreBound(u) && DatagramsRun(u, datagrams, now).Ok?
    ensures var v := DatagramsRun(u, datagrams, now).value; Served(u, AtOnce(Native, datagrams, now), v) && ModesAreBound(v)
    decreases |datagrams|
  {
    hide Served, ModesAreBound, PacketStep;
    if datagrams == [] {
      NothingServed(u);
    } else {
      var r := Raw(Native, datagrams[0], now);
      assert Proper(Raw(Native, datagrams[0], 0));
      RawServed(u, r);
      var v := RawStep(u, r).value;
      DatagramsServed(v, datagrams[1..], now);
      ServedThen(u, [r], v, AtOnce(Native, datagrams[1..], now), DatagramsRun(v, datagrams[1..], now).value);
    }
  }

  lemma {:induction false} ReplayServed(u: UdpView, commands: seq<seq<byte>>, datagrams: seq<seq<byte>>, now: nat)
    requires AllProper(Quic, commands) && AllProper(Native, datagrams) && ModesAreBound(u)
    requires UdpRun(u, commands, datagrams, now).Ok?
    ensures var v := UdpRun(u, commands, datagrams, now).value;
            Served(u, AtOnce(Quic, commands, now) + AtOnce(Native, datagrams, now), v) && ModesAreBound(v)
    decreases |commands|
  {
    hide Served, ModesAreBound, UdpCommandStep;
    if commands == [] {
      DatagramsServed(u, datagrams, now);
      assert [] + AtOnce(Native, datagrams, now) == AtOnce(Native, datagrams, now);
    } else {
      var r := Raw(Quic, commands[0], now);
      assert Proper(Raw(Quic, commands[0], 0));
      RawServed(u, r);
      var v := RawStep(u, r).value;
      ReplayServed(v, commands[1..], datagrams, now);
      var later := AtOnce(Quic, commands[1..], now) + AtOnce(Native, datagrams, now);
      ServedThen(u, [r], v, later, UdpRun(v, commands[1..], datagrams, now).value);
      Associate([r], AtOnce(Quic, commands[1..], now), AtOnce(Native, datagrams, now));
    }
  }

  lemma AuthServed(c: Conn, users: seq<User>, deadline: nat, command: seq<byte>, now: nat)
    requires !c.authenticated && AllProper(Quic, c.commands) && AllProper(Native, c.datagrams) && ModesAreBound(c.udp)
    requires CommandStep(c, users, deadline, command, now).Ok? && CommandStep(c, users, deadline, command, now).value.authenticated
    ensures var c' := CommandStep(c, users, deadline, command, now).value;
            && Served(c.udp, AtOnce(Quic, c.commands, now) + AtOnce(Native, c.datagrams, now), c'.udp)
            && Replayed(c') && ModesAreBound(c'.udp)
  {
    hide Identify, AllReplay, AllProper, ModesAreBound, Served, UdpRun;
    ReplayServed(c.udp, c.commands, c.datagrams, now);
  }

  /** The read that authenticates a connection serves all that was retained. */
  lemma AuthReadServed(c: Conn, users: seq<User>, deadline: nat, e: Arrival)
    requires !c.authenticated && AllProper(Quic, c.commands) && AllProper(Native, c.datagrams) && ModesAreBound(c.udp)
    requires ConnStep(c, users, deadline, e).Ok? && ConnStep(c, users, deadline, e).value.authenticated
    ensures e.Read?
    ensures var c' := ConnStep(c, users, deadline, e).value;
            && Served(c.udp, AtOnce(Quic, c.commands, e.now) + AtOnce(Native, c.datagrams, e.now), c'.udp)
            && Replayed(c') && ModesAreBound(c'.udp)
  {
    hide CommandStep, AllProper, ModesAreBound, Served;
    if e.Read? && Unidirectional(e.id) {
      var booked := Book(c, deadline, |e.data|, if e.id in c.uni then 0 else 1, e.now).value;
      var command := CommandWith(c.uni, e.id, e.data);
      AuthServed(booked.(uni := if e.fin then c.uni - {e.id} else c.uni[e.id := AuthDone]), users, deadline, command, e.now);
    }
  }

  lemma OneProper(c: Conn, e: Arrival, mode: UdpMode)
    ensures AllProper(mode, BytesOf(RawOf(c, e), mode))
  {
    hide CommandWith;
    var raws := RawOf(c, e);
    assert |raws| == 1 ==> raws[1..] == [] && BytesOf(raws[1..], mode) == [];
  }

  lemma ProperAppend(mode: UdpMode, a: seq<seq<byte>>, b: seq<seq<byte>>)
    requires AllProper(mode, a) && AllProper(mode, b)
    ensures AllProper(mode, a + b)
  {
    hide Proper;
  }

  lemma {:induction false} RawsAreProper(c: Conn, users: seq<User>, deadline: nat, events: seq<Arrival>, mode: UdpMode)
    requires ConnRun(c, users, deadline, events).Ok?
    ensures AllProper(mode, BytesOf(RawsOf(c, users, deadline, events), mode))
    decreases |events|
  {
    hide ConnStep, RawOf, Proper;
    if events == [] {
      assert BytesOf([], mode) == [];
    } else {
      var c1, first := ConnStep(c, users, deadline, events[0]).value, RawOf(c, events[0]);
      var later := RawsOf(c1, users, deadline, events[1..]);
      hide AllProper, BytesOf;
      OneProper(c, events[0], mode);
      RawsAreProper(c1, users, deadline, events[1..], mode);
      BytesOfAppend(first, later, mode);
      ProperAppend(mode, BytesOf(first, mode), BytesOf(later, mode));
    }
  }

  // Nothing but the traffic

  /** What has been read of a unidirectional stream, since its last FIN if it had one. */
  function Sent(events: seq<Arrival>, id: nat): (r: Option<seq<byte>>)
    decreases |events|
  {
    if events == [] then None
    else
      var e, before := events[|events| - 1], Sent(events[..|events| - 1], id);
      if !e.Read? || e.id != id then before
      else if e.fin then None
      else Some((if before.Some? then before.value else []) + e.data)
  }

  /** The command that a chunk completes or continues. */
  function WholeCommand(events: seq<Arrival>, id: nat, data: seq<byte>): (r: seq<byte>) {
    var before := Sent(events, id);
    (if before.Some? then before.value else []) + data
  }

  ghost predicate UniHolds(c: Conn, events: seq<Arrival>, id: nat) {
    match Sent(events, id)
    case None => id !in c.uni
    case Some(bytes) => id in c.uni && c.uni[id] == if AuthComplete(bytes) then AuthDone else Receiving(bytes)
  }

  lemma CommandKeepsUni(c: Conn, users: seq<User>, deadline: nat, command: seq<byte>, now: nat)
    ensures CommandStep(c, users, deadline, command, now).Ok? ==> CommandStep(c, users, deadline, command, now).value.uni == c.uni
  {
    hide Identify, UdpRun, AllReplay, UdpCommandStep;
  }

  lemma UniAfter(c: Conn, users: seq<User>, deadline: nat, e: Arrival)
    requires e.Read? && Unidirectional(e.id) && ConnStep(c, users, deadline, e).Ok?
    ensures var uni := ConnStep(c, users, deadline, e).value.uni;
            if AfterAuth(c, e.id) then e.data == [] && uni == if e.fin then c.uni - {e.id} else c.uni
            else
              var command := CommandWith(c.uni, e.id, e.data);
              uni == if e.fin then c.uni - {e.id} else c.uni[e.id := if AuthComplete(command) then AuthDone else Receiving(command)]
  {
    hide CommandStep, CommandWith;
    var booked := Book(c, deadline, |e.data|, if e.id in c.uni then 0 else 1, e.now).value;
    CommandKeepsUni(booked.(uni := if e.fin then c.uni - {e.id} else c.uni[e.id := AuthDone]), users, deadline,
                    CommandWith(c.uni, e.id, e.data), e.now);
  }

  lemma UniUntouched(c: Conn, users: seq<User>, deadline: nat, e: Arrival)
    requires !(e.Read? && Unidirectional(e.id)) && ConnStep(c, users, deadline, e).Ok?
    ensures ConnStep(c, users, deadline, e).value.uni == c.uni
  {
    hide HeardWith, PacketStep;
  }

  lemma UniHoldsStep(c: Conn, users: seq<User>, deadline: nat, events: seq<Arrival>, e: Arrival, id: nat)
    requires UniHolds(c, events, id) && ConnStep(c, users, deadline, e).Ok? && Unidirectional(id)
    ensures UniHolds(ConnStep(c, users, deadline, e).value, events + [e], id)
  {
    hide ConnStep;
    assert (events + [e])[..|events|] == events;
    if e.Read? && Unidirectional(e.id) {
      UniAfter(c, users, deadline, e);
      if Sent(events, id).Some? {
        assert e.data == [] ==> Sent(events, id).value + e.data == Sent(events, id).value;
      }
    } else {
      UniUntouched(c, users, deadline, e);
    }
  }

  /** Streams do not mix: what is held of one is the concatenation of its own chunks. */
  lemma {:induction false} HoldsOwnChunks(users: seq<User>, deadline: nat, events: seq<Arrival>, id: nat)
    requires ConnRun(FRESH, users, deadline, events).Ok? && Unidirectional(id)
    ensures UniHolds(ConnRun(FRESH, users, deadline, events).value, events, id)
    decreases |events|
  {
    hide ConnStep;
    if events != [] {
      var before, e := events[..|events| - 1], events[|events| - 1];
      assert events == before + [e];
      ConnRunSnoc(FRESH, users, deadline, before, e);
      HoldsOwnChunks(users, deadline, before, id);
      UniHoldsStep(ConnRun(FRESH, users, deadline, before).value, users, deadline, before, e, id);
    }
  }

  /** What a read completes, told from the traffic before it. */
  function Completes(before: seq<Arrival>, e: Arrival): (r: seq<Raw>) {
    match e
    case Received(dgram, now) => if DeferredDatagram(dgram) then [Raw(Native, dgram, now)] else []
    case Read(id, data, fin, now) =>
      if Unidirectional(id) && fin && DeferredCommand(WholeCommand(before, id, data))
      then [Raw(Quic, WholeCommand(before, id, data), now)]
      else []
  }

  /** All that `events` complete, coming after `before`. */
  function Completed(before: seq<Arrival>, events: seq<Arrival>): (r: seq<Raw>)
    decreases |events|
  {
    if events == [] then [] else Completes(before, events[0]) + Completed(before + [events[0]], events[1..])
  }

  lemma CompletesRaw(users: seq<User>, deadline: nat, before: seq<Arrival>, e: Arrival)
    requires ConnRun(FRESH, users, deadline, before).Ok?
    requires ConnStep(ConnRun(FRESH, users, deadline, before).value, users, deadline, e).Ok?
    ensures RawOf(ConnRun(FRESH, users, deadline, before).value, e) == Completes(before, e)
  {
    hide ConnRun, CommandStep, ChunkStep, DatagramStep;
    if e.Read? && Unidirectional(e.id) {
      HoldsOwnChunks(users, deadline, before, e.id);
    }
  }

  lemma {:induction false} CompletedRaws(users: seq<User>, deadline: nat, before: seq<Arrival>, events: seq<Arrival>)
    requires ConnRun(FRESH, users, deadline, before).Ok?
    requires ConnRun(ConnRun(FRESH, users, deadline, before).value, users, deadline, events).Ok?
    ensures RawsOf(ConnRun(FRESH, users, deadline, before).value, users, deadline, events) == Completed(before, events)
    decreases |events|
  {
    hide ConnStep, RawOf, Completes;
    if events != [] {
      CompletesRaw(users, deadline, before, events[0]);
      ConnRunSnoc(FRESH, users, deadline, before, events[0]);
      CompletedRaws(users, deadline, before + [events[0]], events[1..]);
    }
  }

  // The whole connection

  /** Before authentication all that was completed is retained, commands and datagrams each in order, and nothing else. */
  lemma Retains(users: seq<User>, deadline: nat, before: seq<Arrival>)
    requires ConnRun(FRESH, users, deadline, before).Ok? && !ConnRun(FRESH, users, deadline, before).value.authenticated
    ensures var c, raws := ConnRun(FRESH, users, deadline, before).value, Completed([], before);
            && c.commands == BytesOf(raws, Quic) && AllProper(Quic, c.commands)
            && c.datagrams == BytesOf(raws, Native) && AllProper(Native, c.datagrams)
            && c.udp == FRESH.udp
  {
    hide RawsOf, Completed, BytesOf, AllProper, ConnStep;
    assert ConnRun(FRESH, users, deadline, []) == Ok(FRESH);
    CompletedRaws(users, deadline, [], before);
    RetainedInOrder(FRESH, users, deadline, before);
    RawsAreProper(FRESH, users, deadline, before, Quic);
    RawsAreProper(FRESH, users, deadline, before, Native);
    var raws := Completed([], before);
    assert [] + BytesOf(raws, Quic) == BytesOf(raws, Quic) && [] + BytesOf(raws, Native) == BytesOf(raws, Native);
  }

  /**
   Whatever was read before authentication, `e` being the read that authenticated the connection, and
   whatever was read since, the relays have been offered what the assembler delivers of the commands
   completed before, then of the datagrams received before, all pushed at that moment, then of the rest
   as it came; and no association was ever offered packets of two modes.
   */
  lemma UdpOverConnection(users: seq<User>, deadline: nat, before: seq<Arrival>, e: Arrival, after: seq<Arrival>)
    requires ConnRun(FRESH, users, deadline, before).Ok? && !ConnRun(FRESH, users, deadline, before).value.authenticated
    requires ConnRun(FRESH, users, deadline, before + [e]).Ok? && ConnRun(FRESH, users, deadline, before + [e]).value.authenticated
    requires ConnRun(ConnRun(FRESH, users, deadline, before + [e]).value, users, deadline, after).Ok?
    ensures e.Read?
    ensures var u := ConnRun(ConnRun(FRESH, users, deadline, before + [e]).value, users, deadline, after).value.udp;
            var first := Completed([], before);
            && Served(FRESH.udp, AtOnce(Quic, BytesOf(first, Quic), e.now) + AtOnce(Native, BytesOf(first, Native), e.now)
                                 + Completed(before + [e], after), u)
            && ModesAreBound(u)
  {
    var c1, c2 := ConnRun(FRESH, users, deadline, before).value, ConnRun(FRESH, users, deadline, before + [e]).value;
    assert ModesAreBound(FRESH.udp);
    hide ConnStep, ConnRun, RawsOf, BytesOf, AllProper, ModesAreBound, Served, Completed;
    ConnRunSnoc(FRESH, users, deadline, before, e);
    Retains(users, deadline, before);
    AuthReadServed(c1, users, deadline, e);
    LiveUdp(c2, users, deadline, after);
    CompletedRaws(users, deadline, before + [e], after);
    ServedThen(FRESH.udp, AtOnce(Quic, c1.commands, e.now) + AtOnce(Native, c1.datagrams, e.now), c2.udp,
               RawsOf(c2, users, deadline, after), ConnRun(c2, users, deadline, after).value.udp);
  }

  function Offered(log: seq<UdpAct>): (r: seq<Packet>) {
    if log == [] then []
    else if log[0].Offer? then [log[0].packet] + Offered(log[1..])
    else Offered(log[1..])
  }

  /** The packets offered are those delivered. */
  lemma {:induction false} OfferedAreDelivered(inputs: seq<Input>, outcomes: seq<Outcome>)
    requires |outcomes| == |Events(inputs)|
    ensures Offered(Acts(inputs, outcomes)) == Delivered(outcomes)
  {
    if inputs != [] {
      if inputs[0].Push? {
        OfferedAreDelivered(inputs[1..], outcomes[1..]);
        var rest := Acts(inputs[1..], outcomes[1..]);
        assert forall act: UdpAct :: ([act] + rest)[1..] == rest;
        assert [] + rest == rest;
      } else {
        OfferedAreDelivered(inputs[1..], outcomes);
        assert Acts(inputs, outcomes)[1..] == Acts(inputs[1..], outcomes);
      }
    }
  }

  /** The client's heartbeat is accepted at any time and changes nothing. */
  lemma HeartbeatChangesNothing(c: Conn, users: seq<User>, deadline: nat, now: nat)
    ensures Marshal(Heartbeat) == Ok(TuicUdpSend.HEARTBEAT)
    ensures ConnStep(c, users, deadline, Received(TuicUdpSend.HEARTBEAT, now)) == Ok(c)
  {}

  // Deferred equals live

  /** The retained commands as finished streams, and the retained datagrams, all read at one moment. */
  function Reads(ids: seq<nat>, commands: seq<seq<byte>>, datagrams: seq<seq<byte>>, now: nat): (r: seq<Arrival>)
    requires |ids| == |commands|
    decreases |commands|
  {
    if commands != [] then [Read(ids[0], commands[0], true, now)] + Reads(ids[1..], commands[1..], datagrams, now)
    else Datagrams(datagrams, now)
  }

  function Datagrams(datagrams: seq<seq<byte>>, now: nat): (r: seq<Arrival>) {
    if datagrams == [] then [] else [Received(datagrams[0], now)] + Datagrams(datagrams[1..], now)
  }

  /** The connection as it would be, had it been authenticated without retaining anything. */
  function Admitted(c: Conn, user: User): Conn {
    c.(authenticated := true, username := Some(user.name), bytes := 0, items := 0, commands := [], datagrams := [])
  }

  lemma {:induction false} DatagramsRead(c: Conn, users: seq<User>, deadline: nat, datagrams: seq<seq<byte>>, now: nat)
    requires c.authenticated && AllProper(Native, datagrams)
    ensures ConnRun(c, users, deadline, Datagrams(datagrams, now)) ==
            match DatagramsRun(c.udp, datagrams, now) { case Err => Err case Ok(u) => Ok(c.(udp := u)) }
    decreases |datagrams|
  {
    hide PacketStep;
    if datagrams != [] {
      assert Proper(Raw(Native, datagrams[0], 0));
      assert Datagrams(datagrams, now)[1..] == Datagrams(datagrams[1..], now);
      if PacketStep(c.udp, datagrams[0], Native, now).Ok? {
        DatagramsRead(c.(udp := PacketStep(c.udp, datagrams[0], Native, now).value), users, deadline, datagrams[1..], now);
      }
    }
  }

  lemma CommandRead(c: Conn, users: seq<User>, deadline: nat, id: nat, command: seq<byte>, now: nat)
    requires c.authenticated && Unidirectional(id) && id !in c.uni && DeferredCommand(command)
    ensures ConnStep(c, users, deadline, Read(id, command, true, now)) ==
            match UdpCommandStep(c.udp, command, now) { case Err => Err case Ok(u) => Ok(c.(udp := u)) }
  {
    hide UdpCommandStep;
    assert [] + command == command;
    assert c.uni - {id} == c.uni;
  }

  lemma {:induction false} ReadsRun(c: Conn, users: seq<User>, deadline: nat, ids: seq<nat>,
                                    commands: seq<seq<byte>>, datagrams: seq<seq<byte>>, now: nat)
    requires c.authenticated && AllProper(Quic, commands) && AllProper(Native, datagrams) && |ids| == |commands|
    requires forall i :: 0 <= i < |ids| ==> Unidirectional(ids[i]) && ids[i] !in c.uni
    ensures ConnRun(c, users, deadline, Reads(ids, commands, datagrams, now)) ==
            match UdpRun(c.udp, commands, datagrams, now) { case Err => Err case Ok(u) => Ok(c.(udp := u)) }
    decreases |commands|
  {
    hide UdpCommandStep, DatagramsRun, ConnStep;
    if commands == [] {
      DatagramsRead(c, users, deadline, datagrams, now);
    } else {
      assert Proper(Raw(Quic, commands[0], 0));
      assert Reads(ids, commands, datagrams, now)[1..] == Reads(ids[1..], commands[1..], datagrams, now);
      CommandRead(c, users, deadline, ids[0], commands[0], now);
      if UdpCommandStep(c.udp, commands[0], now).Ok? {
        ReadsRun(c.(udp := UdpCommandStep(c.udp, commands[0], now).value), users, deadline, ids[1..], commands[1..], datagrams, now);
      }
    }
  }

  lemma AuthIsLive(c: Conn, users: seq<User>, deadline: nat, command: seq<byte>, now: nat, ids: seq<nat>)
    requires !c.authenticated && AllProper(Quic, c.commands) && AllProper(Native, c.datagrams)
    requires |ids| == |c.commands| && forall i :: 0 <= i < |ids| ==> Unidirectional(ids[i]) && ids[i] !in c.uni
    ensures AuthStep(c, users, deadline, command, now) ==
            if now < deadline && Identify(users, command).Ok? && AllReplay(c.heard)
            then ConnRun(Admitted(c, Identify(users, command).value), users, deadline, Reads(ids, c.commands, c.datagrams, now))
            else Err
  {
    hide Identify, UdpRun, AllReplay, Reads, ConnRun, AllProper;
    if Identify(users, command).Ok? {
      ReadsRun(Admitted(c, Identify(users, command).value), users, deadline, ids, c.commands, c.datagrams, now);
    }
  }

  /**
   Deferred equals live for UDP: to authenticate, in time and with replayable client streams, is to have
   been authenticated without retaining anything and to read, at that moment, the retained commands as
   streams of their own that finish at once and then the retained datagrams. It fails where that fails.
   */
  lemma DeferredUdpEqualsLive(users: seq<User>, deadline: nat, before: seq<Arrival>, command: seq<byte>, now: nat, ids: seq<nat>)
    requires ConnRun(FRESH, users, deadline, before).Ok? && !ConnRun(FRESH, users, deadline, before).value.authenticated
    requires var c := ConnRun(FRESH, users, deadline, before).value;
             |ids| == |c.commands| && forall i :: 0 <= i < |ids| ==> Unidirectional(ids[i]) && ids[i] !in c.uni
    ensures var c := ConnRun(FRESH, users, deadline, before).value;
            AuthStep(c, users, deadline, command, now) ==
            if now < deadline && Identify(users, command).Ok? && AllReplay(c.heard)
            then ConnRun(Admitted(c, Identify(users, command).value), users, deadline, Reads(ids, c.commands, c.datagrams, now))
            else Err
  {
    hide *;
    Retains(users, deadline, before);
    AuthIsLive(ConnRun(FRESH, users, deadline, before).value, users, deadline, command, now, ids);
  }
}
