/**
 The connection of src/protocol/tuic/inbound.rs as a pure machine: one step per read.

 What the relay tasks of client streams were given is not part of the state: it is
 determined by what was heard of each stream (see `TuicInbound.TuicApp.Served`).
 */
module TuicConnection {
  import opened Bytes
  import opened TuicCodec
  import opened TuicAssembler
  import opened TuicStream

  const MAX_PRE_AUTH_BYTES: nat := 256 * 1024
  const MAX_PRE_AUTH_ITEMS: nat := 256

  /** `token` is what this connection's exporter yields for the user, if it yields anything. */
  datatype User = User(name: string, uuid: Uuid, token: Option<Token>)

  /** The user that a complete authenticate command proves to be. */
  function Identify(users: seq<User>, command: seq<byte>): (r: Result<User>)
    ensures r.Ok? ==> r.value in users
  {
    match ParseHeader(command)
    case Done(Authenticate(uuid, token), _) => FindUser(users, uuid, token)
    case _ => Err
  }

  predicate FirstWith(users: seq<User>, uuid: Uuid, i: int) {
    0 <= i < |users| && users[i].uuid == uuid && forall j :: 0 <= j < i ==> users[j].uuid != uuid
  }

  /** Only the first user with the uuid is considered. */
  function FindUser(users: seq<User>, uuid: Uuid, token: Token): (r: Result<User>)
    ensures r.Ok? ==> r.value in users && r.value.uuid == uuid && r.value.token == Some(token)
    ensures r.Ok? <==> exists i :: FirstWith(users, uuid, i) && users[i].token == Some(token)
    ensures forall i :: FirstWith(users, uuid, i) && r.Ok? ==> r.value == users[i]
  {
    assert forall i :: 0 < i < |users| ==> users[i] == users[1..][i - 1];
    assert users != [] && users[0].uuid != uuid ==> forall i :: FirstWith(users, uuid, i) <==> i > 0 && FirstWith(users[1..], uuid, i - 1);
    if users == [] then Err
    else if users[0].uuid == uuid then (if users[0].token == Some(token) then Ok(users[0]) else Err)
    else FindUser(users[1..], uuid, token)
  }

  // UDP, but for the requests that reach the relays

  datatype UdpMode = Native | Quic

  /** A whole packet offered to the relay of its association, or the end of an association. */
  datatype UdpAct = Offer(mode: UdpMode, packet: Packet) | Dropped(assoc: u16)

  /** Fragments being assembled, the relay mode each association is bound to, and all that was done so far. */
  datatype UdpView = UdpView(groups: Groups, modes: map<u16, UdpMode>, log: seq<UdpAct>)

  function PacketStep(u: UdpView, data: seq<byte>, mode: UdpMode, now: nat): (r: Result<UdpView>) {
    var p :- ParsePacket(data);
    var (groups, delivered) := Pushed(u.groups, p, now);
    var packet :- delivered;
    match packet
    case None => Ok(u.(groups := groups))
    case Some(whole) =>
      if whole.assocId in u.modes && u.modes[whole.assocId] != mode then Err
      else Ok(UdpView(groups, u.modes[whole.assocId := mode], u.log + [Offer(mode, whole)]))
  }

  function DissociateStep(u: UdpView, command: seq<byte>): (r: Result<UdpView>) {
    match ParseHeader(command)
    case Done(Dissociate(id), _) => Ok(UdpView(u.groups, u.modes - {id}, u.log + [Dropped(id)]))
    case _ => Err
  }

  function UdpCommandStep(u: UdpView, command: seq<byte>, now: nat): (r: Result<UdpView>) {
    if |command| >= 2 && command[1] == CMD_PACKET then PacketStep(u, command, Quic, now) else DissociateStep(u, command)
  }

  function DatagramsRun(u: UdpView, datagrams: seq<seq<byte>>, now: nat): (r: Result<UdpView>)
    decreases |datagrams|
  {
    if datagrams == [] then Ok(u)
    else
      var u' :- PacketStep(u, datagrams[0], Native, now);
      DatagramsRun(u', datagrams[1..], now)
  }

  /** The replay of retained commands, then of retained datagrams. */
  function UdpRun(u: UdpView, commands: seq<seq<byte>>, datagrams: seq<seq<byte>>, now: nat): (r: Result<UdpView>)
    decreases |commands|
  {
    if commands == [] then DatagramsRun(u, datagrams, now)
    else
      var u' :- UdpCommandStep(u, commands[0], now);
      UdpRun(u', commands[1..], datagrams, now)
  }

  // Connections

  datatype UniState = Receiving(command: seq<byte>) | AuthDone

  datatype Conn = Conn(
    authenticated: bool, username: Option<string>, bytes: nat, items: nat, uni: map<nat, UniState>,
    commands: seq<seq<byte>>, datagrams: seq<seq<byte>>, udp: UdpView, heard: map<nat, Stream>)

  /** A connection that has read nothing. */
  const FRESH := Conn(false, None, 0, 0, map[], [], [], UdpView(map[], map[], []), map[])

  predicate DeferredCommand(command: seq<byte>) {
    |command| >= 2 && (command[1] == CMD_PACKET || command[1] == CMD_DISSOCIATE)
  }

  predicate DeferredDatagram(data: seq<byte>) {
    |data| >= 2 && data[1] == CMD_PACKET
  }

  predicate AuthComplete(command: seq<byte>) {
    |command| >= AUTHENTICATE_LEN && command[1] == CMD_AUTHENTICATE
  }

  /** A stream retained without data is dropped by the replay; any other must be acceptable. */
  predicate Replays(s: Stream) {
    s.data == [] || Acceptable(s)
  }

  predicate AllReplay(retained: map<nat, Stream>) {
    forall id :: id in retained ==> Replays(retained[id])
  }

  predicate InTime(c: Conn, deadline: nat, now: nat) {
    c.authenticated || now < deadline
  }

  /** Books retained bytes and entries, or refuses. */
  function Book(c: Conn, deadline: nat, bytes: nat, items: nat, now: nat): (r: Result<Conn>) {
    if c.authenticated then Ok(c)
    else if now < deadline && c.bytes + bytes <= MAX_PRE_AUTH_BYTES && c.items + items <= MAX_PRE_AUTH_ITEMS then
      Ok(c.(bytes := c.bytes + bytes, items := c.items + items))
    else Err
  }

  /** Authentication replays everything retained. */
  function AuthStep(c: Conn, users: seq<User>, deadline: nat, command: seq<byte>, now: nat): (r: Result<Conn>) {
    if !InTime(c, deadline, now) then Err
    else
      var user :- Identify(users, command);
      var udp :- UdpRun(c.udp, c.commands, c.datagrams, now);
      if !c.authenticated && !AllReplay(c.heard) then Err
      else Ok(c.(authenticated := true, username := Some(user.name), bytes := 0, items := 0,
                 commands := [], datagrams := [], udp := udp))
  }

  /** A complete uni-stream command. */
  function CommandStep(c: Conn, users: seq<User>, deadline: nat, command: seq<byte>, now: nat): (r: Result<Conn>) {
    if |command| >= 2 && command[1] == CMD_AUTHENTICATE then AuthStep(c, users, deadline, command, now)
    else if !DeferredCommand(command) then Err
    else if !c.authenticated then Ok(c.(commands := c.commands + [command]))
    else
      var udp :- UdpCommandStep(c.udp, command, now);
      Ok(c.(udp := udp))
  }

  function CommandWith(uni: map<nat, UniState>, id: nat, data: seq<byte>): (r: seq<byte>) {
    (if id in uni && uni[id].Receiving? then uni[id].command else []) + data
  }

  /** A booked chunk of a unidirectional stream. */
  function UniMore(c: Conn, users: seq<User>, deadline: nat, id: nat, data: seq<byte>, fin: bool, now: nat): (r: Result<Conn>) {
    if id in c.uni && c.uni[id].AuthDone? then
      if data != [] then Err else Ok(if fin then c.(uni := c.uni - {id}) else c)
    else
      var command := CommandWith(c.uni, id, data);
      if AuthComplete(command) && |command| != AUTHENTICATE_LEN then Err
      else if !fin && !AuthComplete(command) then Ok(c.(uni := c.uni[id := Receiving(command)]))
      else CommandStep(c.(uni := if fin then c.uni - {id} else c.uni[id := AuthDone]), users, deadline, command, now)
  }

  function UniStep(c: Conn, users: seq<User>, deadline: nat, id: nat, data: seq<byte>, fin: bool, now: nat): (r: Result<Conn>) {
    var c' :- Book(c, deadline, |data|, if id in c.uni then 0 else 1, now);
    UniMore(c', users, deadline, id, data, fin, now)
  }

  function HeardWith(heard: map<nat, Stream>, id: nat, data: seq<byte>, fin: bool): (r: map<nat, Stream>)
    ensures id in r
  {
    heard[id := Join(if id in heard then heard[id] else UNHEARD, data, fin)]
  }

  /** A chunk of a client stream, the relay's channel having room. */
  function ChunkStep(c: Conn, deadline: nat, id: nat, data: seq<byte>, fin: bool, now: nat): (r: Result<Conn>) {
    var heard := HeardWith(c.heard, id, data, fin);
    if c.authenticated then
      if Acceptable(heard[id]) then Ok(c.(heard := heard)) else Err
    else
      var c' :- Book(c, deadline, |data|, if id in c.heard then 0 else 1, now);
      Ok(c'.(heard := heard))
  }

  function DatagramStep(c: Conn, deadline: nat, data: seq<byte>, now: nat): (r: Result<Conn>) {
    if !InTime(c, deadline, now) || |data| < 2 then Err
    else if data[1] == CMD_HEARTBEAT then Ok(c)
    else if data[1] != CMD_PACKET then Err
    else if c.authenticated then
      var udp :- PacketStep(c.udp, data, Native, now);
      Ok(c.(udp := udp))
    else
      var c' :- Book(c, deadline, |data|, 1, now);
      Ok(c'.(datagrams := c'.datagrams + [data]))
  }

  datatype Arrival = Read(id: nat, data: seq<byte>, fin: bool, now: nat) | Received(dgram: seq<byte>, at: nat)

  /** Bit 1 of a QUIC stream id marks a unidirectional stream (section 2.1 of RFC 9000). */
  predicate Unidirectional(id: nat) {
    (id / 2) % 2 == 1
  }

  predicate ClientChunk(e: Arrival) {
    e.Read? && !Unidirectional(e.id)
  }

  predicate IsHeartbeat(data: seq<byte>) {
    |data| >= 2 && data[0] == VERSION && data[1] == CMD_HEARTBEAT
  }

  function ConnStep(c: Conn, users: seq<User>, deadline: nat, e: Arrival): (r: Result<Conn>) {
    match e
    case Read(id, data, fin, now) =>
      if Unidirectional(id) then UniStep(c, users, deadline, id, data, fin, now)
      else ChunkStep(c, deadline, id, data, fin, now)
    case Received(dgram, now) =>
      if IsHeartbeat(dgram) then Ok(c) else DatagramStep(c, deadline, dgram, now)
  }

  function ConnRun(c: Conn, users: seq<User>, deadline: nat, events: seq<Arrival>): (r: Result<Conn>)
    decreases |events|
  {
    if events == [] then Ok(c)
    else
      var c' :- ConnStep(c, users, deadline, events[0]);
      ConnRun(c', users, deadline, events[1..])
  }

  lemma {:induction false} ConnRunSnoc(c: Conn, users: seq<User>, deadline: nat, events: seq<Arrival>, e: Arrival)
    ensures ConnRun(c, users, deadline, events + [e]) ==
            match ConnRun(c, users, deadline, events)
            case Err => Err
            case Ok(c') => ConnStep(c', users, deadline, e)
    decreases |events|
  {
    hide ConnStep;
    if events == [] {
      assert (events + [e])[1..] == [];
    } else {
      assert (events + [e])[1..] == events[1..] + [e];
      if ConnStep(c, users, deadline, events[0]).Ok? {
        ConnRunSnoc(ConnStep(c, users, deadline, events[0]).value, users, deadline, events[1..], e);
      }
    }
  }

  /** QUIC delivers nothing of a stream after its FIN. */
  predicate FinsRespected(heard: map<nat, Stream>, events: seq<Arrival>)
    decreases |events|
  {
    events == [] ||
    if ClientChunk(events[0]) then
      && (events[0].id in heard ==> !heard[events[0].id].fin)
      && FinsRespected(HeardWith(heard, events[0].id, events[0].data, events[0].fin), events[1..])
    else FinsRespected(heard, events[1..])
  }

  // Whole runs

  /** Some event completes a command that identifies a user. */
  predicate Identifies(c: Conn, users: seq<User>, deadline: nat, events: seq<Arrival>)
    decreases |events|
  {
    events != [] &&
    (|| (events[0].Read? && Unidirectional(events[0].id) &&
         Identify(users, CommandWith(c.uni, events[0].id, events[0].data)).Ok?)
     || var c' := ConnStep(c, users, deadline, events[0]);
        c'.Ok? && Identifies(c'.value, users, deadline, events[1..]))
  }

  /** Authenticated as one of the configured users. */
  ghost predicate Known(c: Conn, users: seq<User>) {
    c.authenticated && exists u :: u in users && c.username == Some(u.name)
  }

  /** What a complete command does before authentication: authenticate, or be kept. */
  lemma CommandBefore(c: Conn, users: seq<User>, deadline: nat, command: seq<byte>, now: nat)
    requires !c.authenticated && CommandStep(c, users, deadline, command, now).Ok?
    ensures var c' := CommandStep(c, users, deadline, command, now).value;
            if c'.authenticated then Identify(users, command).Ok? && Known(c', users)
            else c'.udp == c.udp && c'.username == c.username && c'.bytes == c.bytes
  {
    hide Identify, UdpRun, AllReplay;
  }

  lemma UniBefore(c: Conn, users: seq<User>, deadline: nat, id: nat, data: seq<byte>, fin: bool, now: nat)
    requires !c.authenticated && UniStep(c, users, deadline, id, data, fin, now).Ok?
    ensures var c' := UniStep(c, users, deadline, id, data, fin, now).value;
            if c'.authenticated then Identify(users, CommandWith(c.uni, id, data)).Ok? && Known(c', users)
            else c'.udp == c.udp && c'.username == c.username && c'.bytes == c.bytes + |data| <= MAX_PRE_AUTH_BYTES
  {
    hide Identify, CommandStep, Known;
    var booked := Book(c, deadline, |data|, if id in c.uni then 0 else 1, now).value;
    var command := CommandWith(c.uni, id, data);
    if !(id in c.uni && c.uni[id].AuthDone?) && (fin || AuthComplete(command)) {
      CommandBefore(booked.(uni := if fin then c.uni - {id} else c.uni[id := AuthDone]), users, deadline, command, now);
    }
  }

  lemma StepAuthenticates(c: Conn, users: seq<User>, deadline: nat, e: Arrival)
    requires !c.authenticated && ConnStep(c, users, deadline, e).Ok?
    ensures var c' := ConnStep(c, users, deadline, e).value;
            if c'.authenticated
            then Identifies(c, users, deadline, [e]) && Known(c', users)
            else c'.udp == c.udp && c'.username == c.username
  {
    hide Identify, UniStep, Known;
    if e.Read? && Unidirectional(e.id) {
      UniBefore(c, users, deadline, e.id, e.data, e.fin, e.now);
    }
  }

  lemma StepStaysAuthenticated(c: Conn, users: seq<User>, deadline: nat, e: Arrival)
    requires Known(c, users) && ConnStep(c, users, deadline, e).Ok?
    ensures Known(ConnStep(c, users, deadline, e).value, users)
  {
    hide Identify, UdpRun, AllReplay, PacketStep, UdpCommandStep;
  }

  /**
   Over any traffic: nobody becomes authenticated unless some complete command identifies a user,
   and until then no packet reaches the assembler and no association exists.
   */
  lemma {:induction false} NothingServedUnidentified(c: Conn, users: seq<User>, deadline: nat, events: seq<Arrival>)
    requires !c.authenticated && ConnRun(c, users, deadline, events).Ok?
    ensures var c' := ConnRun(c, users, deadline, events).value;
            if c'.authenticated then Identifies(c, users, deadline, events) && Known(c', users)
            else c'.udp == c.udp && c'.username == c.username
    decreases |events|
  {
    hide Identify, ConnStep;
    if events != [] {
      var c' := ConnStep(c, users, deadline, events[0]).value;
      StepAuthenticates(c, users, deadline, events[0]);
      assert [events[0]][1..] == [];
      if c'.authenticated {
        StaysAuthenticated(c', users, deadline, events[1..]);
      } else {
        NothingServedUnidentified(c', users, deadline, events[1..]);
      }
    }
  }

  /** The bytes of an event that an unauthenticated connection retains. */
  function Retained(e: Arrival): nat {
    match e
    case Read(_, data, _, _) => |data|
    case Received(dgram, _) => if |dgram| >= 2 && dgram[1] == CMD_PACKET then |dgram| else 0
  }

  function Traffic(events: seq<Arrival>): (n: nat)
    decreases |events|
  {
    if events == [] then 0 else Retained(events[0]) + Traffic(events[1..])
  }

  lemma StepSpends(c: Conn, users: seq<User>, deadline: nat, e: Arrival)
    requires !c.authenticated && c.bytes <= MAX_PRE_AUTH_BYTES && ConnStep(c, users, deadline, e).Ok?
    ensures var c' := ConnStep(c, users, deadline, e).value;
            if c'.authenticated then Known(c', users) else c'.bytes == c.bytes + Retained(e) <= MAX_PRE_AUTH_BYTES
  {
    hide Identify, UniStep, Known;
    if e.Read? && Unidirectional(e.id) {
      UniBefore(c, users, deadline, e.id, e.data, e.fin, e.now);
    }
  }

  /** The budget is never returned: an unauthenticated connection can have sent at most `MAX_PRE_AUTH_BYTES` in all. */
  lemma {:induction false} BudgetCoversAllTraffic(c: Conn, users: seq<User>, deadline: nat, events: seq<Arrival>)
    requires !c.authenticated && c.bytes <= MAX_PRE_AUTH_BYTES && ConnRun(c, users, deadline, events).Ok?
    ensures var c' := ConnRun(c, users, deadline, events).value;
            !c'.authenticated ==> c'.bytes == c.bytes + Traffic(events) <= MAX_PRE_AUTH_BYTES
    decreases |events|
  {
    hide ConnStep;
    if events != [] {
      var c' := ConnStep(c, users, deadline, events[0]).value;
      StepSpends(c, users, deadline, events[0]);
      if c'.authenticated {
        StaysAuthenticated(c', users, deadline, events[1..]);
      } else {
        BudgetCoversAllTraffic(c', users, deadline, events[1..]);
      }
    }
  }

  lemma {:induction false} StaysAuthenticated(c: Conn, users: seq<User>, deadline: nat, events: seq<Arrival>)
    requires Known(c, users) && ConnRun(c, users, deadline, events).Ok?
    ensures Known(ConnRun(c, users, deadline, events).value, users)
    decreases |events|
  {
    hide ConnStep;
    if events != [] {
      StepStaysAuthenticated(c, users, deadline, events[0]);
      StaysAuthenticated(ConnStep(c, users, deadline, events[0]).value, users, deadline, events[1..]);
    }
  }

  // The budget, exactly

  /** A chunk of a client stream or a datagram with a packet. */
  predicate Retainable(e: Arrival) {
    ClientChunk(e) || (e.Received? && DeferredDatagram(e.dgram))
  }

  function Moment(e: Arrival): nat {
    match e
    case Read(_, _, _, now) => now
    case Received(_, now) => now
  }

  /** The entries that `events` add to the streams in `known`: one for each other stream and one for each datagram. */
  function Entries(known: set<nat>, events: seq<Arrival>): (n: nat)
    decreases |events|
  {
    if events == [] then 0
    else
      match events[0]
      case Read(id, _, _, _) => (if id in known then 0 else 1) + Entries(known + {id}, events[1..])
      case Received(_, _) => 1 + Entries(known, events[1..])
  }

  lemma RetainedStep(c: Conn, users: seq<User>, deadline: nat, e: Arrival)
    requires !c.authenticated && Retainable(e)
    ensures ConnStep(c, users, deadline, e).Ok? <==>
            Moment(e) < deadline && c.bytes + Retained(e) <= 256 * 1024 && c.items + Entries(c.heard.Keys, [e]) <= 256
    ensures var r := ConnStep(c, users, deadline, e);
            r.Ok? ==> && !r.value.authenticated
                      && r.value.bytes == c.bytes + Retained(e) && r.value.items == c.items + Entries(c.heard.Keys, [e])
                      && r.value.heard.Keys == c.heard.Keys + if e.Read? then {e.id} else {}
  {
    hide Join;
    assert [e][1..] == [];
  }

  /**
   Client streams and packets sent before authentication are all retained exactly if they come in time,
   hold at most 256 KiB and make at most 256 entries in all.
   */
  lemma {:induction false} RetainedExactlyWhen(c: Conn, users: seq<User>, deadline: nat, events: seq<Arrival>)
    requires !c.authenticated && c.bytes <= 256 * 1024 && c.items <= 256
    requires forall i :: 0 <= i < |events| ==> Retainable(events[i])
    ensures ConnRun(c, users, deadline, events).Ok? <==>
            && (forall i :: 0 <= i < |events| ==> Moment(events[i]) < deadline)
            && c.bytes + Traffic(events) <= 256 * 1024
            && c.items + Entries(c.heard.Keys, events) <= 256
    decreases |events|
  {
    hide ConnStep, Retainable, Moment, Retained;
    if events != [] {
      assert forall i :: 0 < i < |events| ==> events[i] == events[1..][i - 1];
      var r := ConnStep(c, users, deadline, events[0]);
      RetainedStep(c, users, deadline, events[0]);
      assert [events[0]][1..] == [];
      if r.Ok? {
        assert c.heard.Keys + {} == c.heard.Keys;
        RetainedExactlyWhen(r.value, users, deadline, events[1..]);
      }
    }
  }

  /** From the deadline on, an unauthenticated connection accepts nothing but heartbeats. */
  lemma NothingAfterDeadline(c: Conn, users: seq<User>, deadline: nat, e: Arrival)
    requires !c.authenticated && deadline <= Moment(e)
    ensures ConnStep(c, users, deadline, e) == if e.Received? && IsHeartbeat(e.dgram) then Ok(c) else Err
  {
    hide UniMore, HeardWith;
  }
}
