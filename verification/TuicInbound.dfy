/**
 The connection of src/protocol/tuic/inbound.rs with its fields updated in place.

 Until the client authenticates, everything it sends is retained under one budget of
 bytes and entries; authentication replays it. Every operation refines a step of
 `TuicConnection`. A failed call ends the connection, so the invariant is
 claimed of every state reached by successful calls only.
 */
module TuicInbound {
  import opened Bytes
  import opened Addresses
  import opened TuicCodec
  import opened TuicAssembler
  import opened TuicStream
  import opened TuicConnection
  import opened MapTotals

  datatype UdpSession = UdpSession(mode: UdpMode, lastUsed: nat, requests: seq<(TargetAddr, seq<byte>)>)

  function UniSize(u: UniState): nat {
    if u.Receiving? then |u.command| else 0
  }

  function StreamSize(s: Stream): nat {
    |s.data|
  }

  function Modes(sessions: map<u16, UdpSession>): (r: map<u16, UdpMode>) {
    map a | a in sessions :: sessions[a].mode
  }

  /** The relay of a delivered packet is bound to `mode`, and got the request unless its channel had no room. */
  ghost predicate Requested(before: map<u16, UdpSession>, after: map<u16, UdpSession>, p: Packet, mode: UdpMode, now: nat) {
    var earlier := if p.assocId in before then before[p.assocId].requests else [];
    && p.target.Some? && p.assocId in after
    && after == before[p.assocId := after[p.assocId]]
    && (after[p.assocId] == UdpSession(mode, now, earlier + [(p.target.value, p.payload)]) ||
        after[p.assocId] == UdpSession(mode, now, earlier))
  }

  lemma DeliveredHasTarget(m: Groups, p: Packet, now: nat)
    ensures var r := Pushed(m, p, now).1; r.Ok? && r.value.Some? ==> r.value.value.target.Some?
  {}

  lemma PushKeepsForm(m: Groups, p: Packet, now: nat)
    requires WellFormed(m) && p.fragId < p.fragTotal
    ensures WellFormed(Pushed(m, p, now).0)
  {
    EvictionKeepsForm(m, now);
    PushDelivers(Evicted(m, now, FRAGMENT_IDLE_TIMEOUT), p, now);
  }

  lemma ParsedIdBelowTotal(data: seq<byte>)
    ensures ParsePacket(data).Ok? ==> ParsePacket(data).value.fragId < ParsePacket(data).value.fragTotal
  {}

  class TuicApp {
    const users: seq<User>
    const deadline: nat
    const assembler: PacketAssembler
    var authenticated: bool
    var username: Option<string>
    var preAuthBytes: nat
    var preAuthItems: nat
    var uniStreams: map<nat, UniState>
    var pendingCommands: seq<seq<byte>>
    var pendingDatagrams: seq<seq<byte>>
    var pendingStreams: map<nat, Stream>
    /** Streams whose relay still takes data. */
    var streams: set<nat>
    /** What each relay task was given. */
    var relays: map<nat, Relay>
    var udpSessions: map<u16, UdpSession>
    /** Every packet offered to a relay, and every association ended. */
    ghost var log: seq<UdpAct>
    /** Everything heard of each client stream since the connection began. */
    ghost var heard: map<nat, Stream>

    ghost function ViewOf(id: nat): (v: View)
      reads this`pendingStreams, this`streams, this`relays
    {
      View(if id in pendingStreams then Some(pendingStreams[id]) else None,
           id in streams,
           if id in relays then Some(relays[id]) else None)
    }

    ghost function Udp(): (u: UdpView)
      reads this`udpSessions, this`log, assembler
    {
      UdpView(assembler.fragments, Modes(udpSessions), log)
    }

    /** The connection as `TuicConnection` sees it. */
    ghost function Abs(): (c: Conn)
      reads this, assembler
    {
      Conn(authenticated, username, preAuthBytes, preAuthItems, uniStreams, pendingCommands, pendingDatagrams, Udp(), heard)
    }

    /** The budget counts exactly what is retained, plus `bytes` and `items` in hand, and nothing is served yet. */
    ghost predicate Holding(bytes: nat, items: nat)
      reads this, assembler
    {
      && preAuthBytes == Total(uniStreams, UniSize) + |Flatten(pendingCommands)| + |Flatten(pendingDatagrams)|
                         + Total(pendingStreams, StreamSize) + bytes
      && preAuthItems == |uniStreams| + |pendingCommands| + |pendingDatagrams| + |pendingStreams| + items
      && preAuthBytes <= MAX_PRE_AUTH_BYTES
      && preAuthItems <= MAX_PRE_AUTH_ITEMS
      && (forall i :: 0 <= i < |pendingCommands| ==> DeferredCommand(pendingCommands[i]))
      && (forall i :: 0 <= i < |pendingDatagrams| ==> DeferredDatagram(pendingDatagrams[i]))
      && pendingStreams == heard
      && Idle()
    }

    ghost predicate AllReceiving()
      reads this`uniStreams
    {
      forall id :: id in uniStreams ==> uniStreams[id].Receiving?
    }

    ghost predicate Idle()
      reads this`streams, this`relays, this`udpSessions, assembler
    {
      streams == {} && relays == map[] && udpSessions == map[] && assembler.fragments == map[]
    }

    /** A stream stands as its history demands; an empty one that ended before authentication was dropped. */
    ghost predicate Served(id: nat)
      reads this`pendingStreams, this`streams, this`relays, this`heard
    {
      if id !in heard then ViewOf(id) == NOTHING
      else Settled(ViewOf(id), heard[id]) || (heard[id] == Stream([], true) && ViewOf(id) == NOTHING)
    }

    ghost predicate Valid()
      reads this, assembler
    {
      && WellFormed(assembler.fragments)
      && (!authenticated ==> Holding(0, 0) && AllReceiving())
      && (authenticated ==> Serving())
    }

    ghost predicate Serving()
      reads this`pendingStreams, this`streams, this`relays, this`heard, this`pendingCommands, this`pendingDatagrams
    {
      pendingCommands == [] && pendingDatagrams == [] && forall id :: Served(id)
    }

    ghost predicate Takeable()
      reads this`pendingStreams, this`streams, this`relays, this`heard
    {
      (pendingStreams == heard && streams == {} && relays == map[]) || forall id :: Served(id)
    }

    /** Once the retained streams are taken out, they stand as unheard of and all others as they should. */
    ghost predicate Replayable(retained: map<nat, Stream>)
      reads this`pendingStreams, this`streams, this`relays, this`heard
    {
      forall id :: if id in retained then id in heard && heard[id] == retained[id] && ViewOf(id) == NOTHING else Served(id)
    }

    constructor (users: seq<User>, deadline: nat)
      ensures Valid() && Abs() == FRESH && fresh(assembler)
      ensures this.users == users && this.deadline == deadline
    {
      this.users, this.deadline := users, deadline;
      assembler := new PacketAssembler();
      authenticated, username, preAuthBytes, preAuthItems := false, None, 0, 0;
      uniStreams, pendingCommands, pendingDatagrams, pendingStreams := map[], [], [], map[];
      streams, relays, udpSessions, log, heard := {}, map[], map[], [], map[];
    }

    method ReservePreAuth(bytes: nat, items: nat, now: nat) returns (ok: bool)
      requires !authenticated ==> preAuthBytes <= MAX_PRE_AUTH_BYTES && preAuthItems <= MAX_PRE_AUTH_ITEMS
      modifies this`preAuthBytes, this`preAuthItems
      ensures if ok then Book(old(Abs()), deadline, bytes, items, now) == Ok(Abs())
              else Book(old(Abs()), deadline, bytes, items, now).Err?
    {
      if !authenticated && now >= deadline {
        return false;
      }
      if authenticated {
        return true;
      }
      if bytes > MAX_PRE_AUTH_BYTES - preAuthBytes || items > MAX_PRE_AUTH_ITEMS - preAuthItems {
        return false;
      }
      preAuthBytes, preAuthItems := preAuthBytes + bytes, preAuthItems + items;
      ok := true;
    }

    /** Hands a delivered packet to the relay of its association. The channel may have no room, and then the request is dropped. */
    method Request(packet: Packet, mode: UdpMode, now: nat) returns (ok: bool)
      requires packet.target.Some?
      modifies this`udpSessions, this`log
      ensures ok <==> (packet.assocId in old(udpSessions) ==> old(udpSessions)[packet.assocId].mode == mode)
      ensures ok ==> Requested(old(udpSessions), udpSessions, packet, mode, now)
      ensures ok ==> Modes(udpSessions) == Modes(old(udpSessions))[packet.assocId := mode]
      ensures ok ==> log == old(log) + [Offer(mode, packet)]
    {
      var session := if packet.assocId in udpSessions then udpSessions[packet.assocId] else UdpSession(mode, now, []);
      if session.mode != mode {
        return false;
      }
      session := session.(lastUsed := now);
      if * {
        session := session.(requests := session.requests + [(packet.target.value, packet.payload)]);
      }
      udpSessions := udpSessions[packet.assocId := session];
      log := log + [Offer(mode, packet)];
      ok := true;
    }

    /** An authenticated UDP packet. */
    method HandlePacket(data: seq<byte>, mode: UdpMode, now: nat) returns (ok: bool)
      requires authenticated && WellFormed(assembler.fragments)
      modifies this`udpSessions, this`log, assembler
      ensures WellFormed(assembler.fragments)
      ensures if ok then PacketStep(old(Udp()), data, mode, now) == Ok(Udp())
              else PacketStep(old(Udp()), data, mode, now).Err?
      ensures ok ==>
                match Pushed(old(assembler.fragments), ParsePacket(data).value, now).1.value {
                  case None => udpSessions == old(udpSessions)
                  case Some(p) => Requested(old(udpSessions), udpSessions, p, mode, now)
                }
    {
      var parsed := ParsePacket(data);
      if parsed.Err? {
        return false;
      }
      ParsedIdBelowTotal(data);
      PushKeepsForm(assembler.fragments, parsed.value, now);
      DeliveredHasTarget(assembler.fragments, parsed.value, now);
      hide ParsePacket, WellFormed, Pushed, Requested;
      var pushed := assembler.Push(parsed.value, now);
      if pushed.Err? {
        return false;
      }
      if pushed.value.None? {
        return true;
      }
      var packet := pushed.value.value;
      if packet.target.None? {
        return false;
      }
      ok := Request(packet, mode, now);
    }

    method HandleDissociate(data: seq<byte>) returns (ok: bool)
      requires authenticated
      modifies this`udpSessions, this`log
      ensures if ok then DissociateStep(old(Udp()), data) == Ok(Udp()) else DissociateStep(old(Udp()), data).Err?
      ensures ok ==> udpSessions == old(udpSessions) - {ParseHeader(data).value.dissociated}
    {
      var parsed := ParseHeader(data);
      hide ParseHeader;
      ok := parsed.Done? && parsed.value.Dissociate?;
      if ok {
        udpSessions := udpSessions - {parsed.value.dissociated};
        log := log + [Dropped(parsed.value.dissociated)];
        assert Modes(udpSessions) == Modes(old(udpSessions)) - {parsed.value.dissociated};
      }
    }

    /** A chunk of a client stream once authenticated. A relay whose channel is full ends the connection. */
    method LiveChunk(id: nat, data: seq<byte>, fin: bool) returns (ok: bool)
      requires id in streams ==> id in relays
      modifies this`pendingStreams, this`streams, this`relays
      ensures ok ==> LiveData(old(ViewOf(id)), data, fin) == Ok(ViewOf(id))
      ensures !ok ==> LiveData(old(ViewOf(id)), data, fin).Err? || (id in old(streams) && data != [])
      ensures forall other :: other != id ==> ViewOf(other) == old(ViewOf(other))
    {
      if id in streams {
        var full: bool := *;
        if data != [] && full {
          return false;
        }
        var relay := relays[id];
        relays := relays[id := Relay(relay.target, relay.data + data, relay.closed || fin)];
        if fin {
          streams := streams - {id};
        }
        return true;
      }
      var pending := Join(if id in pendingStreams then pendingStreams[id] else UNHEARD, data, fin);
      pendingStreams := pendingStreams - {id};
      match TryParseConnect(pending.data) {
        case Invalid =>
          return false;
        case NeedMore =>
          if pending.fin {
            return false;
          }
          pendingStreams := pendingStreams[id := pending];
        case Done(target, used) =>
          if !pending.fin {
            streams := streams + {id};
          }
          relays := relays[id := Relay(target, pending.data[used..], pending.fin)];
      }
      ok := true;
    }

    method ReplayUdp(commands: seq<seq<byte>>, datagrams: seq<seq<byte>>, now: nat) returns (ok: bool)
      requires authenticated && WellFormed(assembler.fragments)
      requires forall i :: 0 <= i < |commands| ==> DeferredCommand(commands[i])
      modifies this`udpSessions, this`log, assembler
      ensures WellFormed(assembler.fragments)
      ensures if ok then UdpRun(old(Udp()), commands, datagrams, now) == Ok(Udp())
              else UdpRun(old(Udp()), commands, datagrams, now).Err?
    {
      hide WellFormed, PacketStep, Modes, Pushed;
      var i := 0;
      while i < |commands|
        invariant 0 <= i <= |commands| && WellFormed(assembler.fragments)
        invariant UdpRun(Udp(), commands[i..], datagrams, now) == UdpRun(old(Udp()), commands, datagrams, now)
      {
        assert commands[i..][1..] == commands[i + 1..];
        var done;
        if commands[i][1] == CMD_PACKET {
          done := HandlePacket(commands[i], Quic, now);
        } else {
          done := HandleDissociate(commands[i]);
        }
        if !done {
          return false;
        }
        i := i + 1;
      }
      i := 0;
      while i < |datagrams|
        invariant 0 <= i <= |datagrams| && WellFormed(assembler.fragments)
        invariant DatagramsRun(Udp(), datagrams[i..], now) == UdpRun(old(Udp()), commands, datagrams, now)
      {
        assert datagrams[i..][1..] == datagrams[i + 1..];
        var done := HandlePacket(datagrams[i], Native, now);
        if !done {
          return false;
        }
        i := i + 1;
      }
      ok := true;
    }

    /** Replays retained streams in any order; empty ones are dropped. */
    method ReplayStreams(retained: map<nat, Stream>) returns (ok: bool)
      requires Replayable(retained)
      modifies this`pendingStreams, this`streams, this`relays
      ensures ok ==> forall id :: Served(id)
      ensures ok <==> AllReplay(retained)
    {
      hide LiveData, Settled, Acceptable;
      var todo := retained;
      while todo != map[]
        invariant Replayable(todo)
        invariant AllReplay(retained) <==> AllReplay(todo)
        decreases |todo|
      {
        var id :| id in todo;
        ok := ReplayStream(todo, id, todo[id]);
        if !ok {
          return;
        }
        TotalRemove(todo, StreamSize, id);
        todo := todo - {id};
      }
      ok := true;
    }

    method ReplayStream(ghost todo: map<nat, Stream>, id: nat, stream: Stream) returns (ok: bool)
      requires Replayable(todo) && id in todo && todo[id] == stream
      modifies this`pendingStreams, this`streams, this`relays
      ensures ok ==> Replayable(todo - {id})
      ensures ok <==> Replays(stream)
    {
      hide LiveData, Settled, Acceptable;
      assert ViewOf(id) == NOTHING && id !in streams;
      FreshStreamServed(stream);
      ok := true;
      if stream.data != [] {
        ok := LiveChunk(id, stream.data, stream.fin);
      }
      if ok {
        assert Served(id);
      }
    }

    /** Replays everything retained. */
    method Replay(now: nat) returns (ok: bool)
      requires authenticated && WellFormed(assembler.fragments) && Takeable()
      requires forall i :: 0 <= i < |pendingCommands| ==> DeferredCommand(pendingCommands[i])
      modifies this`pendingCommands, this`pendingDatagrams, this`pendingStreams, this`streams, this`relays,
               this`udpSessions, this`log, assembler
      ensures ok ==> WellFormed(assembler.fragments) && Serving()
      ensures ok ==> UdpRun(old(Udp()), old(pendingCommands), old(pendingDatagrams), now) == Ok(Udp())
      ensures ok <==> UdpRun(old(Udp()), old(pendingCommands), old(pendingDatagrams), now).Ok? && AllReplay(old(pendingStreams))
    {
      hide Takeable, Served, WellFormed, UdpRun, AllReplay, Modes;
      var commands, datagrams := pendingCommands, pendingDatagrams;
      pendingCommands, pendingDatagrams := [], [];
      ok := ReplayUdp(commands, datagrams, now);
      if ok {
        var retained := pendingStreams;
        TakeRetained();
        ok := ReplayStreams(retained);
      }
    }

    /** Authentication: on success everything retained is replayed and every stream stands as if it had been live all along. */
    method HandleAuthData(command: seq<byte>, now: nat, ghost bytes: nat, ghost items: nat) returns (ok: bool)
      requires WellFormed(assembler.fragments)
      requires if authenticated then Serving() else Holding(bytes, items)
      modifies this`authenticated, this`username, this`preAuthBytes, this`preAuthItems, this`pendingCommands,
               this`pendingDatagrams, this`pendingStreams, this`streams, this`relays, this`udpSessions, this`log, assembler
      ensures ok ==> Valid()
      ensures if ok then AuthStep(old(Abs()), users, deadline, command, now) == Ok(Abs())
              else AuthStep(old(Abs()), users, deadline, command, now).Err?
    {
      hide Identify, Served, WellFormed, UdpRun, AllReplay, Modes, Holding, Takeable;
      RetainedIsTakeable(bytes, items);
      if !authenticated && now >= deadline {
        return false;
      }
      var user := Identify(users, command);
      if user.Err? {
        return false;
      }
      authenticated, preAuthBytes, preAuthItems, username := true, 0, 0, Some(user.value.name);
      ok := Replay(now);
    }

    /** Once authenticated, a stream is retained only while its header is incomplete. */
    lemma PendingReplays()
      requires Serving()
      ensures AllReplay(pendingStreams)
    {
      forall id | id in pendingStreams ensures Replays(pendingStreams[id]) {
        assert Served(id);
        RetainedIsUnfinished(ViewOf(id), heard[id]);
      }
    }

    /** A stream that takes data has a complete header and has not ended. */
    lemma OpenHasHeader(id: nat)
      requires Valid() && authenticated && id in streams
      ensures id in heard && !heard[id].fin && TryParseConnect(heard[id].data).Done?
    {
      assert Served(id);
      hide TryParseConnect;
    }

    lemma RetainedIsTakeable(bytes: nat, items: nat)
      requires if authenticated then Serving() else Holding(bytes, items)
      ensures Takeable()
      ensures forall i :: 0 <= i < |pendingCommands| ==> DeferredCommand(pendingCommands[i])
      ensures if authenticated then AllReplay(pendingStreams) else pendingStreams == heard
    {
      if authenticated {
        PendingReplays();
      }
    }

    method TakeRetained()
      requires Takeable()
      modifies this`pendingStreams
      ensures Replayable(old(pendingStreams))
    {
      forall id | id in pendingStreams && Served(id)
        ensures id in heard && heard[id] == pendingStreams[id] && id !in streams && id !in relays
      {
        if Settled(ViewOf(id), heard[id]) {
          RetainedIsUnfinished(ViewOf(id), heard[id]);
        }
      }
      hide Settled;
      pendingStreams := map[];
      forall id
        ensures if id in old(pendingStreams) then id in heard && heard[id] == old(pendingStreams)[id] && ViewOf(id) == NOTHING
                else Served(id)
      {
        assert old(Served(id)) || (old(pendingStreams) == heard && streams == {} && relays == map[]);
        assert id !in old(pendingStreams) ==> ViewOf(id) == old(ViewOf(id));
      }
    }

    /** A complete uni-stream command, whose bytes (and entry) are already booked if the client is not authenticated. */
    method HandleUnidirectionalCommand(command: seq<byte>, now: nat, ghost items: nat) returns (ok: bool)
      requires WellFormed(assembler.fragments)
      requires if authenticated then Serving() else Holding(|command|, items)
      requires !authenticated ==> (items == 1 && AllReceiving()) || (|command| >= 2 && command[1] == CMD_AUTHENTICATE)
      modifies this`authenticated, this`username, this`preAuthBytes, this`preAuthItems, this`pendingCommands,
               this`pendingDatagrams, this`pendingStreams, this`streams, this`relays, this`udpSessions, this`log, assembler
      ensures ok ==> Valid()
      ensures if ok then CommandStep(old(Abs()), users, deadline, command, now) == Ok(Abs())
              else CommandStep(old(Abs()), users, deadline, command, now).Err?
    {
      hide Identify, Served, Total, WellFormed, AuthStep, Modes, PacketStep, DissociateStep, Pushed;
      if |command| < 2 {
        return false;
      }
      if command[1] == CMD_AUTHENTICATE {
        ok := HandleAuthData(command, now, |command|, items);
      } else if command[1] == CMD_PACKET || command[1] == CMD_DISSOCIATE {
        if !authenticated {
          FlattenSnoc(pendingCommands, command);
          pendingCommands := pendingCommands + [command];
          ok := true;
        } else if command[1] == CMD_PACKET {
          ok := HandlePacket(command, Quic, now);
        } else {
          ok := HandleDissociate(command);
        }
      } else {
        ok := false;
      }
    }

    /** Appends to an unfinished uni-stream command. */
    method ReceiveCommand(id: nat, data: seq<byte>) returns (command: seq<byte>)
      requires id in uniStreams ==> uniStreams[id].Receiving?
      modifies this`uniStreams
      ensures uniStreams == old(uniStreams)[id := Receiving(command)]
      ensures command == (if id in old(uniStreams) then old(uniStreams)[id].command else []) + data
      ensures Total(uniStreams, UniSize) == Total(old(uniStreams), UniSize) + |data|
      ensures |uniStreams| == |old(uniStreams)| + (if id in old(uniStreams) then 0 else 1)
    {
      command := (if id in uniStreams then uniStreams[id].command else []) + data;
      TotalSet(uniStreams, UniSize, id, Receiving(command));
      uniStreams := uniStreams[id := Receiving(command)];
    }

    /** Takes a complete command out of the budget's uni streams; a stream still open is remembered as done. */
    method FinishCommand(id: nat, command: seq<byte>, fin: bool, now: nat) returns (ok: bool)
      requires Valid() && id in uniStreams && uniStreams[id] == Receiving(command)
      requires fin || (|command| >= 2 && command[1] == CMD_AUTHENTICATE)
      modifies this`authenticated, this`username, this`preAuthBytes, this`preAuthItems, this`uniStreams, this`pendingCommands,
               this`pendingDatagrams, this`pendingStreams, this`streams, this`relays, this`udpSessions, this`log, assembler
      ensures ok ==> Valid()
      ensures var c := old(Abs()).(uni := if fin then old(uniStreams) - {id} else old(uniStreams)[id := AuthDone]);
              if ok then CommandStep(c, users, deadline, command, now) == Ok(Abs())
              else CommandStep(c, users, deadline, command, now).Err?
    {
      hide Served, Total, WellFormed, CommandStep, Modes;
      if fin {
        TotalRemove(uniStreams, UniSize, id);
        uniStreams := uniStreams - {id};
        ok := HandleUnidirectionalCommand(command, now, 1);
      } else {
        TotalSet(uniStreams, UniSize, id, AuthDone);
        uniStreams := uniStreams[id := AuthDone];
        ok := HandleUnidirectionalCommand(command, now, 0);
      }
    }

    /** A booked chunk of an unfinished command. */
    method ExtendCommand(id: nat, data: seq<byte>, fin: bool, now: nat) returns (ok: bool)
      requires WellFormed(assembler.fragments) && (id in uniStreams ==> uniStreams[id].Receiving?)
      requires if authenticated then Serving() else Holding(|data|, if id in uniStreams then 0 else 1) && AllReceiving()
      modifies this`authenticated, this`username, this`preAuthBytes, this`preAuthItems, this`uniStreams, this`pendingCommands,
               this`pendingDatagrams, this`pendingStreams, this`streams, this`relays, this`udpSessions, this`log, assembler
      ensures ok ==> Valid()
      ensures if ok then UniMore(old(Abs()), users, deadline, id, data, fin, now) == Ok(Abs())
              else UniMore(old(Abs()), users, deadline, id, data, fin, now).Err?
    {
      hide Served, Total, WellFormed, CommandStep, Modes;
      var command := ReceiveCommand(id, data);
      if AuthComplete(command) && |command| != AUTHENTICATE_LEN {
        return false;
      }
      if !fin && !AuthComplete(command) {
        return true;
      }
      assert fin ==> uniStreams - {id} == old(uniStreams) - {id};
      assert !fin ==> uniStreams[id := AuthDone] == old(uniStreams)[id := AuthDone];
      ok := FinishCommand(id, command, fin, now);
    }

    /** A chunk of a client's unidirectional stream. */
    method HandleUnidirectionalStream(id: nat, data: seq<byte>, fin: bool, now: nat) returns (ok: bool)
      requires Valid()
      modifies this`authenticated, this`username, this`preAuthBytes, this`preAuthItems, this`uniStreams, this`pendingCommands,
               this`pendingDatagrams, this`pendingStreams, this`streams, this`relays, this`udpSessions, this`log, assembler
      ensures ok ==> Valid()
      ensures if ok then UniStep(old(Abs()), users, deadline, id, data, fin, now) == Ok(Abs())
              else UniStep(old(Abs()), users, deadline, id, data, fin, now).Err?
    {
      hide Served, Total, WellFormed, CommandStep, Modes;
      ok := ReservePreAuth(|data|, if id in uniStreams then 0 else 1, now);
      if !ok {
        return;
      }
      if id in uniStreams && uniStreams[id].AuthDone? {
        if data != [] {
          return false;
        }
        if fin {
          uniStreams := uniStreams - {id};
        }
        return true;
      }
      ok := ExtendCommand(id, data, fin, now);
    }

    /** Before authentication a chunk is only retained, if the budget allows. */
    method RetainChunk(id: nat, data: seq<byte>, fin: bool, now: nat) returns (ok: bool)
      requires Valid() && !authenticated
      modifies this`preAuthBytes, this`preAuthItems, this`pendingStreams, this`heard
      ensures ok ==> Valid()
      ensures if ok then ChunkStep(old(Abs()), deadline, id, data, fin, now) == Ok(Abs())
              else ChunkStep(old(Abs()), deadline, id, data, fin, now).Err?
    {
      hide Total, WellFormed, Modes, Flatten, AllReceiving, Idle, Serving, Udp, Acceptable;
      ok := ReservePreAuth(|data|, if id in pendingStreams then 0 else 1, now);
      if ok {
        KeepChunk(id, data, fin);
      }
    }

    method KeepChunk(id: nat, data: seq<byte>, fin: bool)
      modifies this`pendingStreams, this`heard
      ensures pendingStreams == HeardWith(old(pendingStreams), id, data, fin) && heard == HeardWith(old(heard), id, data, fin)
      ensures Total(pendingStreams, StreamSize) == Total(old(pendingStreams), StreamSize) + |data|
      ensures |pendingStreams| == |old(pendingStreams)| + if id in old(pendingStreams) then 0 else 1
    {
      var stream := Join(if id in pendingStreams then pendingStreams[id] else UNHEARD, data, fin);
      TotalSet(pendingStreams, StreamSize, id, stream);
      pendingStreams := pendingStreams[id := stream];
      heard := HeardWith(heard, id, data, fin);
    }

    /** A chunk of a client stream. QUIC delivers nothing after the FIN. Only a full relay channel makes it fail where the step succeeds. */
    method HandleStreamData(id: nat, data: seq<byte>, fin: bool, now: nat) returns (ok: bool)
      requires Valid() && (id in heard ==> !heard[id].fin)
      modifies this`preAuthBytes, this`preAuthItems, this`pendingStreams, this`streams, this`relays, this`heard
      ensures ok ==> Valid() && ChunkStep(old(Abs()), deadline, id, data, fin, now) == Ok(Abs())
      ensures !ok ==> ChunkStep(old(Abs()), deadline, id, data, fin, now).Err? || (authenticated && id in old(streams) && data != [])
    {
      hide WellFormed, LiveData, Settled, Holding, AllReceiving, Acceptable;
      if !authenticated {
        ok := RetainChunk(id, data, fin, now);
        return;
      }
      ghost var before := if id in heard then heard[id] else UNHEARD;
      NothingHeard();
      assert Served(id) && Settled(ViewOf(id), before);
      OpenIsRelayed(ViewOf(id), before);
      LiveDataSettles(ViewOf(id), before, data, fin);
      heard := HeardWith(heard, id, data, fin);
      ok := LiveChunk(id, data, fin);
      if ok {
        forall other ensures Served(other) {
          assert other != id ==> old(Served(other));
        }
      }
    }

    method HandleDatagram(data: seq<byte>, now: nat) returns (ok: bool)
      requires Valid()
      modifies this`preAuthBytes, this`preAuthItems, this`pendingDatagrams, this`udpSessions, this`log, assembler
      ensures ok ==> Valid()
      ensures if ok then DatagramStep(old(Abs()), deadline, data, now) == Ok(Abs())
              else DatagramStep(old(Abs()), deadline, data, now).Err?
    {
      hide Served, Total, WellFormed, PacketStep, Modes, Pushed, AllReceiving, Flatten;
      if (!authenticated && now >= deadline) || |data| < 2 {
        return false;
      }
      if data[1] == CMD_HEARTBEAT {
        return true;
      }
      if data[1] != CMD_PACKET {
        return false;
      }
      if authenticated {
        ok := HandlePacket(data, Native, now);
      } else {
        ok := ReservePreAuth(|data|, 1, now);
        if ok {
          FlattenSnoc(pendingDatagrams, data);
          pendingDatagrams := pendingDatagrams + [data];
        }
      }
    }

    /** One read, as `process_reads` hands it over. */
    method HandleRead(e: Arrival) returns (ok: bool)
      requires Valid() && (ClientChunk(e) && e.id in heard ==> !heard[e.id].fin)
      modifies this, assembler
      ensures ok ==> Valid() && ConnStep(old(Abs()), users, deadline, e) == Ok(Abs())
      ensures !ok ==> ConnStep(old(Abs()), users, deadline, e).Err? || Pushes(old(Abs()), e)
    {
      hide Valid, UniStep, ChunkStep, DatagramStep, TryParseConnect;
      match e {
        case Read(id, data, fin, now) =>
          if Unidirectional(id) {
            ok := HandleUnidirectionalStream(id, data, fin, now);
          } else {
            if authenticated && id in streams {
              OpenHasHeader(id);
            }
            ok := HandleStreamData(id, data, fin, now);
          }
        case Received(dgram, now) =>
          ok := true;
          if !IsHeartbeat(dgram) {
            ok := HandleDatagram(dgram, now);
          }
      }
    }
  }

  /** A chunk with data for a stream that is being relayed, whose channel may be full. */
  predicate Pushes(c: Conn, e: Arrival) {
    && c.authenticated && ClientChunk(e) && e.data != []
    && e.id in c.heard && !c.heard[e.id].fin && TryParseConnect(c.heard[e.id].data).Done?
  }

  /**
   Any traffic at all: while the connection survives, it goes through the states of the pure
   machine, the budget is exact or, once authenticated, each stream stands as the whole of what
   was heard of it demands. It stops at the first read where the machine fails, or at one that
   hands data to a relay whose channel is full.
   */
  method ProcessReads(app: TuicApp, events: seq<Arrival>) returns (ok: bool, handled: nat)
    requires app.Valid() && FinsRespected(app.heard, events)
    modifies app, app.assembler
    ensures handled <= |events| && ConnRun(old(app.Abs()), app.users, app.deadline, events[..handled]).Ok?
    ensures ok ==> handled == |events| && app.Valid()
    ensures ok ==> ConnRun(old(app.Abs()), app.users, app.deadline, events) == Ok(app.Abs())
    ensures !ok ==>
              && handled < |events|
              && var c := ConnRun(old(app.Abs()), app.users, app.deadline, events[..handled]).value;
                 ConnStep(c, app.users, app.deadline, events[handled]).Err? || Pushes(c, events[handled])
  {
    hide ConnStep, Pushes;
    handled := 0;
    while handled < |events|
      invariant handled <= |events|
      invariant app.Valid() && FinsRespected(app.heard, events[handled..])
      invariant ConnRun(old(app.Abs()), app.users, app.deadline, events[..handled]) == Ok(app.Abs())
    {
      var e := events[handled];
      Onward(old(app.Abs()), app.Abs(), app.users, app.deadline, events, handled);
      hide ConnRun, FinsRespected;
      ok := app.HandleRead(e);
      if !ok {
        return;
      }
      handled := handled + 1;
    }
    assert events[..handled] == events;
    ok := true;
  }

  /** Where the machine stands after one more read, and that QUIC's promise about FINs goes on. */
  lemma Onward(c0: Conn, c: Conn, users: seq<User>, deadline: nat, events: seq<Arrival>, i: nat)
    requires i < |events| && ConnRun(c0, users, deadline, events[..i]) == Ok(c) && FinsRespected(c.heard, events[i..])
    ensures ConnRun(c0, users, deadline, events[..i + 1]) == ConnStep(c, users, deadline, events[i])
    ensures ConnStep(c, users, deadline, events[i]).Ok? ==>
              FinsRespected(ConnStep(c, users, deadline, events[i]).value.heard, events[i + 1..])
    ensures ClientChunk(events[i]) && events[i].id in c.heard ==> !c.heard[events[i].id].fin
  {
    hide ConnStep;
    assert events[i..][1..] == events[i + 1..];
    assert events[..i] + [events[i]] == events[..i + 1];
    ConnRunSnoc(c0, users, deadline, events[..i], events[i]);
    StepHears(c, users, deadline, events[i]);
  }

  lemma StepHears(c: Conn, users: seq<User>, deadline: nat, e: Arrival)
    ensures var c' := ConnStep(c, users, deadline, e);
            c'.Ok? ==> c'.value.heard == if ClientChunk(e) then HeardWith(c.heard, e.id, e.data, e.fin) else c.heard
  {
    hide Identify, UdpRun, AllReplay, PacketStep, UdpCommandStep, Acceptable;
  }

  /** Two surviving connections that heard the same of a stream relay the same, whenever each was authenticated and whatever else it heard. */
  lemma RelayDependsOnlyOnWhatWasHeard(a: TuicApp, b: TuicApp, id: nat)
    requires a.Valid() && b.Valid() && a.authenticated && b.authenticated
    requires id in a.heard && id in b.heard && a.heard[id] == b.heard[id]
    ensures a.ViewOf(id).relay == b.ViewOf(id).relay
    ensures a.heard[id] != Stream([], true) ==> Acceptable(a.heard[id])
    ensures TryParseConnect(a.heard[id].data).Done? ==>
              var Done(target, used) := TryParseConnect(a.heard[id].data);
              a.ViewOf(id).relay == Some(Relay(target, a.heard[id].data[used..], a.heard[id].fin))
  {
    assert a.Served(id) && b.Served(id);
    NothingHeard();
  }

  lemma OpenIsRelayed(v: View, h: Stream)
    requires Settled(v, h)
    ensures v.open ==> v.relay.Some?
  {}

  lemma FreshStreamServed(h: Stream)
    ensures LiveData(NOTHING, h.data, h.fin).Ok? <==> Acceptable(h)
    ensures LiveData(NOTHING, h.data, h.fin).Ok? ==> Settled(LiveData(NOTHING, h.data, h.fin).value, h)
    ensures h.data == [] ==> h.fin || Settled(NOTHING, h)
  {
    NothingHeard();
    LiveDataSettles(NOTHING, UNHEARD, h.data, h.fin);
    assert Join(UNHEARD, h.data, h.fin) == h;
  }

  /** A stream that still waits for its header is neither open nor relayed. */
  lemma RetainedIsUnfinished(v: View, h: Stream)
    requires Settled(v, h)
    ensures v.pending.Some? ==> v == View(Some(h), false, None)
  {}

  lemma EvictionKeepsForm(m: Groups, now: nat)
    requires WellFormed(m)
    ensures WellFormed(Evicted(m, now, FRAGMENT_IDLE_TIMEOUT))
  {}
}
