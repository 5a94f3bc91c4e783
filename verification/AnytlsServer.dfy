/**
 The frame dispatch of src/protocol/anytls/inbound.rs: one authenticated session serving
 many multiplexed streams. An event is a client frame with the outcomes of the dial and
 of the write it may cause, or a frame that a stream's reader task sends on its own.
 */
module AnytlsServer {
  import opened Bytes
  import opened Addresses
  import opened AnytlsFrames
  import opened AnytlsSettings
  import opened AnytlsWriter
  import PaddingNegotiation

  datatype Kind = Tcp | Udp

  datatype Event =
    | FromClient(frame: Frame, dialOk: bool, writeOk: bool)
    | FromTask(id: u32, command: byte, data: seq<byte>)

  /** What the session does to the outside: frames to the client, dials, and bytes handed to a stream. */
  datatype Effect =
    | Send(frame: Frame)
    | Dial(dialId: u32, target: TargetAddr)
    | Deliver(deliverId: u32, bytes: seq<byte>)

  datatype Server = Server(md5: seq<byte>, scheme: seq<byte>)

  datatype State = State(streams: map<u32, Kind>, synacked: set<u32>, settingsSeen: bool, clientV2: bool)

  const START := State(map[], {}, false, false)

  /** "v=2", and "sp.v2.udp-over-tcp.arpa" */
  const SERVER_SETTINGS: seq<byte> := [118, 61, 50]
  const MAGIC_HOST: seq<byte> :=
    [115, 112, 46, 118, 50, 46, 117, 100, 112, 45, 111, 118, 101, 114, 45, 116, 99, 112, 46, 97, 114, 112, 97]

  function Lower(b: byte): byte {
    if 65 <= b <= 90 then b + 32 else b
  }

  predicate EqualIgnoringCase(a: seq<byte>, b: seq<byte>) {
    |a| == |b| && forall i :: 0 <= i < |a| ==> Lower(a[i]) == Lower(b[i])
  }

  predicate IsMagic(t: TargetAddr) {
    t.Domain? && EqualIgnoringCase(t.host, MAGIC_HOST) && t.hostPort == 0
  }

  function Fin(id: u32): Effect {
    Send(Frame(CMD_FIN, id, []))
  }

  function SynAck(id: u32): Effect {
    Send(Frame(CMD_SYNACK, id, []))
  }

  /** Acknowledges a stream once, to clients that announced version 2. */
  function Acknowledge(s: State, id: u32): (r: (State, seq<Effect>)) {
    if s.clientV2 && id !in s.synacked then (s.(synacked := s.synacked + {id}), [SynAck(id)]) else (s, [])
  }

  function OnSettings(server: Server, s: State, data: seq<byte>): (r: Result<(State, seq<Effect>)>) {
    var v2 := AnnouncesV2(data);
    var greet := if v2 then [Send(Frame(CMD_SERVER_SETTINGS, 0, SERVER_SETTINGS))] else [];
    var s' := s.(settingsSeen := true, clientV2 := v2);
    if SettingsValue(data, KEY_MD5) == Some(server.md5) then Ok((s', greet))
    else if |server.scheme| > MAX_DATA then Err
    else Ok((s', greet + [Send(Frame(CMD_UPDATE_PADDING_SCHEME, 0, server.scheme))]))
  }

  /** The dispatch sends the update that the negotiation calls for, or ends the session if no frame can hold it. */
  lemma SettingsSendUpdate(x: PaddingNegotiation.Foreign, lines: seq<seq<byte>>, s: State, settings: seq<byte>)
    ensures var server := Server(PaddingNegotiation.ServerMd5(x, lines), PaddingNegotiation.SchemeText(x, lines));
            var r := OnSettings(server, s, settings);
            match PaddingNegotiation.UpdateFor(x, lines, settings)
            case None => r.Ok? && forall u :: Send(Frame(CMD_UPDATE_PADDING_SCHEME, 0, u)) !in r.value.1
            case Some(u) =>
              if |u| <= PaddingNegotiation.MAX_FRAME
              then r.Ok? && |r.value.1| > 0 && r.value.1[|r.value.1| - 1] == Send(Frame(CMD_UPDATE_PADDING_SCHEME, 0, u))
              else r.Err?
    ensures var r := OnSettings(Server(PaddingNegotiation.ServerMd5(x, lines), PaddingNegotiation.SchemeText(x, lines)), s, settings);
            r.Ok? ==>
              && (Send(Frame(CMD_SERVER_SETTINGS, 0, SERVER_SETTINGS)) in r.value.1 <==> AnnouncesV2(settings))
              && |r.value.1| <= 2 && r.value.0 == s.(settingsSeen := true, clientV2 := AnnouncesV2(settings))
  {
    hide SettingsValue, AnnouncesV2;
  }

  /** The server's own settings announce version 2. */
  lemma ServerAnnouncesV2()
    ensures AnnouncesV2(SERVER_SETTINGS)
  {
    hide ValidUtf8, SplitOnce;
    assert SERVER_SETTINGS == Setting(KEY_V, TWO);
    assert Join([SERVER_SETTINGS]) == SERVER_SETTINGS;
    LinesOfJoin([SERVER_SETTINGS]);
    AsciiIsUtf8(SERVER_SETTINGS);
    SplitAt(KEY_V, TWO);
    TwoIsTwo();
  }

  function OnPush(s: State, id: u32, data: seq<byte>, dialOk: bool, writeOk: bool): (r: (State, seq<Effect>)) {
    if id in s.streams then
      if s.streams[id].Udp? then (s, [Deliver(id, data)])
      else if writeOk then (s, [Deliver(id, data)])
      else (s.(streams := s.streams - {id}), [Fin(id)])
    else
      match ParseAddr(SOCKS, data)
      case NeedMore => (s, [Fin(id)])
      case Invalid => (s, [Fin(id)])
      case Done(target, used) =>
        var initial := if used < |data| then [Deliver(id, data[used..])] else [];
        if IsMagic(target) then
          var (s', acks) := Acknowledge(s.(streams := s.streams[id := Udp]), id);
          (s', initial + acks)
        else if !dialOk then (s, [Dial(id, target), Fin(id)])
        else if used < |data| && !writeOk then (s, [Dial(id, target), Fin(id)])
        else
          var (s', acks) := Acknowledge(s.(streams := s.streams[id := Tcp]), id);
          (s', [Dial(id, target)] + initial + acks)
  }

  /** One event; `Err` ends the session. */
  function Step(server: Server, s: State, e: Event): (r: Result<(State, seq<Effect>)>) {
    match e
    case FromTask(id, command, data) => Ok((s, if |data| <= MAX_DATA then [Send(Frame(command, id, data))] else []))
    case FromClient(f, dialOk, writeOk) =>
      if f.command == CMD_SETTINGS then OnSettings(server, s, f.data)
      else if f.command == CMD_SYN then
        if !s.settingsSeen then Err else Ok(Acknowledge(s, f.streamId))
      else if f.command == CMD_PSH then
        if !s.settingsSeen then Err else Ok(OnPush(s, f.streamId, f.data, dialOk, writeOk))
      else if f.command == CMD_FIN then
        Ok((s.(streams := s.streams - {f.streamId}, synacked := s.synacked - {f.streamId}), []))
      else if f.command == CMD_HEART_REQUEST then Ok((s, [Send(Frame(CMD_HEART_RESPONSE, f.streamId, []))]))
      else Ok((s, []))
  }

  function Run(server: Server, s: State, events: seq<Event>): (r: Result<(State, seq<Effect>)>)
    decreases |events|
  {
    if events == [] then Ok((s, []))
    else
      var (s1, first) :- Step(server, s, events[0]);
      var (s2, rest) :- Run(server, s1, events[1..]);
      Ok((s2, first + rest))
  }

  lemma {:induction false} RunSnoc(server: Server, s: State, events: seq<Event>, e: Event)
    ensures Run(server, s, events + [e]) ==
            match Run(server, s, events)
            case Err => Err
            case Ok((t, es)) =>
              match Step(server, t, e)
              case Err => Err
              case Ok((u, more)) => Ok((u, es + more))
    decreases |events|
  {
    hide Step;
    if events == [] {
      assert (events + [e])[1..] == [] && [e][1..] == [];
      if Step(server, s, e).Ok? {
        var more := Step(server, s, e).value.1;
        assert more + [] == more == [] + more;
      }
    } else {
      assert (events + [e])[1..] == events[1..] + [e];
      if Step(server, s, events[0]).Ok? {
        var (t, first) := Step(server, s, events[0]).value;
        RunSnoc(server, t, events[1..], e);
        if Run(server, s, events + [e]).Ok? {
          var (u, es) := Run(server, t, events[1..]).value;
          Associate(first, es, Step(server, u, e).value.1);
        }
      }
    }
  }

  /** The session as the source keeps it, with its variables updated in place. */
  class ServerSession {
    const server: Server
    var streams: map<u32, Kind>
    var synacked: set<u32>
    var settingsSeen: bool
    var clientV2: bool
    var effects: seq<Effect>
    /** Everything the session has handled. */
    ghost var history: seq<Event>

    ghost function Abstract(): State
      reads this`streams, this`synacked, this`settingsSeen, this`clientV2
    {
      State(streams, synacked, settingsSeen, clientV2)
    }

    /** The session is where its history leads, and has done exactly what that calls for. */
    ghost predicate Valid()
      reads this
    {
      Run(server, START, history) == Ok((Abstract(), effects))
    }

    constructor (server: Server)
      ensures Valid() && history == [] && this.server == server
    {
      this.server := server;
      streams, synacked, settingsSeen, clientV2, effects, history := map[], {}, false, false, [], [];
    }

    method SendFrame(command: byte, id: u32, data: seq<byte>) returns (ok: bool)
      modifies this`effects
      ensures ok <==> |data| <= MAX_DATA
      ensures effects == if ok then old(effects) + [Send(Frame(command, id, data))] else old(effects)
    {
      ok := |data| <= MAX_DATA;
      if ok {
        effects := effects + [Send(Frame(command, id, data))];
      }
    }

    method AcknowledgeOnce(id: u32)
      modifies this`effects, this`synacked
      ensures var (s, acks) := Acknowledge(old(Abstract()), id); Abstract() == s && effects == old(effects) + acks
    {
      if clientV2 && id !in synacked {
        synacked := synacked + {id};
        var _ := SendFrame(CMD_SYNACK, id, []);
      }
    }

    method HandlePush(id: u32, data: seq<byte>, dialOk: bool, writeOk: bool)
      modifies this`effects, this`synacked, this`streams
      ensures var (s, more) := OnPush(old(Abstract()), id, data, dialOk, writeOk);
              Abstract() == s && effects == old(effects) + more
    {
      if id in streams {
        if streams[id].Tcp? && !writeOk {
          streams := streams - {id};
          var _ := SendFrame(CMD_FIN, id, []);
        } else {
          effects := effects + [Deliver(id, data)];
        }
        return;
      }
      var parsed := ParseAddr(SOCKS, data);
      if !parsed.Done? {
        var _ := SendFrame(CMD_FIN, id, []);
        return;
      }
      hide ParseAddr, IsMagic;
      var initial := data[parsed.used..];
      if IsMagic(parsed.value) {
        if initial != [] {
          effects := effects + [Deliver(id, initial)];
        }
        streams := streams[id := Udp];
        AcknowledgeOnce(id);
        return;
      }
      effects := effects + [Dial(id, parsed.value)];
      if !dialOk || (initial != [] && !writeOk) {
        var _ := SendFrame(CMD_FIN, id, []);
        return;
      }
      if initial != [] {
        effects := effects + [Deliver(id, initial)];
      }
      streams := streams[id := Tcp];
      AcknowledgeOnce(id);
    }

    method HandleFrame(f: Frame, dialOk: bool, writeOk: bool) returns (ok: bool)
      modifies this`streams, this`synacked, this`settingsSeen, this`clientV2, this`effects
      ensures ok <==> Step(server, old(Abstract()), FromClient(f, dialOk, writeOk)).Ok?
      ensures ok ==>
                var (s, more) := Step(server, old(Abstract()), FromClient(f, dialOk, writeOk)).value;
                Abstract() == s && effects == old(effects) + more
    {
      hide SettingsValue, AnnouncesV2, OnPush;
      ok := true;
      if f.command == CMD_SETTINGS {
        settingsSeen := true;
        clientV2 := AnnouncesV2(f.data);
        if clientV2 {
          ok := SendFrame(CMD_SERVER_SETTINGS, 0, SERVER_SETTINGS);
        }
        if SettingsValue(f.data, KEY_MD5) != Some(server.md5) {
          ok := SendFrame(CMD_UPDATE_PADDING_SCHEME, 0, server.scheme);
        }
      } else if f.command == CMD_SYN || f.command == CMD_PSH {
        if !settingsSeen {
          var _ := SendFrame(CMD_ALERT, 0, []);
          return false;
        }
        if f.command == CMD_SYN {
          AcknowledgeOnce(f.streamId);
        } else {
          HandlePush(f.streamId, f.data, dialOk, writeOk);
        }
      } else if f.command == CMD_FIN {
        streams := streams - {f.streamId};
        synacked := synacked - {f.streamId};
      } else if f.command == CMD_HEART_REQUEST {
        ok := SendFrame(CMD_HEART_RESPONSE, f.streamId, []);
      }
    }

    /** One event. The session ends exactly when the run of its history, with this event, ends. */
    method Handle(e: Event) returns (ok: bool)
      requires Valid()
      modifies this
      ensures history == old(history) + [e]
      ensures if ok then Valid() else Run(server, START, history).Err?
    {
      RunSnoc(server, START, history, e);
      hide Run, Step;
      history := history + [e];
      match e {
        case FromClient(f, dialOk, writeOk) =>
          ok := HandleFrame(f, dialOk, writeOk);
        case FromTask(id, command, data) =>
          TaskStep(server, Abstract(), id, command, data);
          assert effects + [] == effects;
          var _ := SendFrame(command, id, data);
          ok := true;
      }
    }
  }

  lemma TaskStep(server: Server, s: State, id: u32, command: byte, data: seq<byte>)
    ensures Step(server, s, FromTask(id, command, data)) ==
            Ok((s, if |data| <= MAX_DATA then [Send(Frame(command, id, data))] else []))
  {}

  // Streams do not interfere

  function EffectId(e: Effect): u32 {
    match e
    case Send(f) => f.streamId
    case Dial(id, _) => id
    case Deliver(id, _) => id
  }

  function EffectsOf(es: seq<Effect>, id: u32): (r: seq<Effect>) {
    if es == [] then []
    else if EffectId(es[0]) == id then [es[0]] + EffectsOf(es[1..], id)
    else EffectsOf(es[1..], id)
  }

  predicate Concerns(e: Event, id: u32) {
    match e
    case FromTask(task, _, _) => task == id
    case FromClient(f, _, _) => f.command == CMD_SETTINGS || f.streamId == id
  }

  function OnlyStream(events: seq<Event>, id: u32): (r: seq<Event>) {
    if events == [] then []
    else if Concerns(events[0], id) then [events[0]] + OnlyStream(events[1..], id)
    else OnlyStream(events[1..], id)
  }

  /** Two sessions that no event about stream `id` can tell apart. */
  predicate SameStream(s: State, t: State, id: u32) {
    && s.settingsSeen == t.settingsSeen && s.clientV2 == t.clientV2
    && (id in s.synacked <==> id in t.synacked)
    && (id in s.streams <==> id in t.streams)
    && (id in s.streams ==> s.streams[id] == t.streams[id])
  }

  lemma {:induction false} EffectsAppend(a: seq<Effect>, b: seq<Effect>, id: u32)
    ensures EffectsOf(a + b, id) == EffectsOf(a, id) + EffectsOf(b, id)
  {
    if a == [] {
      assert a + b == b;
    } else {
      assert (a + b)[1..] == a[1..] + b;
      EffectsAppend(a[1..], b, id);
    }
  }

  lemma ConcernedStep(server: Server, s: State, t: State, e: Event, id: u32)
    requires SameStream(s, t, id) && Concerns(e, id)
    ensures Step(server, s, e).Ok? <==> Step(server, t, e).Ok?
    ensures Step(server, s, e).Ok? ==>
              && Step(server, s, e).value.1 == Step(server, t, e).value.1
              && SameStream(Step(server, s, e).value.0, Step(server, t, e).value.0, id)
  {
    hide ParseAddr, SettingsValue, AnnouncesV2, IsMagic;
  }

  predicate AllBelongTo(es: seq<Effect>, id: u32) {
    forall i :: 0 <= i < |es| ==> EffectId(es[i]) == id
  }

  lemma {:induction false} ForeignEffects(es: seq<Effect>, own: u32, id: u32)
    requires AllBelongTo(es, own) && own != id
    ensures EffectsOf(es, id) == []
  {
    if es != [] {
      ForeignEffects(es[1..], own, id);
    }
  }

  lemma UnconcernedStep(server: Server, s: State, e: Event, id: u32)
    requires !Concerns(e, id) && Step(server, s, e).Ok?
    ensures SameStream(Step(server, s, e).value.0, s, id)
    ensures EffectsOf(Step(server, s, e).value.1, id) == []
  {
    var own := if e.FromTask? then e.id else e.frame.streamId;
    hide SettingsValue, AnnouncesV2, OnPush;
    if e.FromClient? && e.frame.command == CMD_PSH {
      PushIsOwn(s, own, e.frame.data, e.dialOk, e.writeOk, id);
    }
    ForeignEffects(Step(server, s, e).value.1, own, id);
  }

  lemma PushIsOwn(s: State, own: u32, data: seq<byte>, dialOk: bool, writeOk: bool, id: u32)
    requires own != id
    ensures var (t, es) := OnPush(s, own, data, dialOk, writeOk); SameStream(t, s, id) && AllBelongTo(es, own)
  {
    hide ParseAddr, IsMagic;
  }

  lemma {:induction false} RunsAgree(server: Server, s: State, t: State, events: seq<Event>, id: u32)
    requires SameStream(s, t, id) && Run(server, s, events).Ok?
    ensures Run(server, t, OnlyStream(events, id)).Ok?
    ensures EffectsOf(Run(server, s, events).value.1, id) == EffectsOf(Run(server, t, OnlyStream(events, id)).value.1, id)
    ensures SameStream(Run(server, s, events).value.0, Run(server, t, OnlyStream(events, id)).value.0, id)
    decreases |events|
  {
    hide Step;
    if events != [] {
      var e := events[0];
      var (s1, first) := Step(server, s, e).value;
      EffectsAppend(first, Run(server, s1, events[1..]).value.1, id);
      if Concerns(e, id) {
        ConcernedStep(server, s, t, e, id);
        var t1 := Step(server, t, e).value.0;
        RunsAgree(server, s1, t1, events[1..], id);
        assert OnlyStream(events, id)[1..] == OnlyStream(events[1..], id);
        EffectsAppend(first, Run(server, t1, OnlyStream(events[1..], id)).value.1, id);
      } else {
        UnconcernedStep(server, s, e, id);
        RunsAgree(server, s1, t, events[1..], id);
      }
    }
  }

  /**
   Non-interference: in any session that survives, what is done for one stream is what would be
   done if the client had sent nothing but its SETTINGS and that stream's own frames.
   */
  lemma StreamsDoNotInterfere(server: Server, events: seq<Event>, id: u32)
    requires Run(server, START, events).Ok?
    ensures Run(server, START, OnlyStream(events, id)).Ok?
    ensures EffectsOf(Run(server, START, events).value.1, id)
         == EffectsOf(Run(server, START, OnlyStream(events, id)).value.1, id)
  {
    RunsAgree(server, START, START, events, id);
  }

  // Padding is invisible

  predicate IsWaste(e: Event) {
    e.FromClient? && e.frame.command == CMD_WASTE
  }

  function DropWaste(events: seq<Event>): (r: seq<Event>) {
    if events == [] then []
    else if IsWaste(events[0]) then DropWaste(events[1..])
    else [events[0]] + DropWaste(events[1..])
  }

  function ClientFrames(events: seq<Event>): (r: seq<Frame>) {
    if events == [] then []
    else if events[0].FromClient? then [events[0].frame] + ClientFrames(events[1..])
    else ClientFrames(events[1..])
  }

  /** A session behaves as if waste had been dropped before it. */
  lemma {:induction false} WasteIsInert(server: Server, s: State, events: seq<Event>)
    ensures Run(server, s, events) == Run(server, s, DropWaste(events))
    decreases |events|
  {
    if events != [] {
      if IsWaste(events[0]) {
        WasteIsInert(server, s, events[1..]);
        WasteStep(server, s, events);
      } else {
        assert DropWaste(events)[1..] == DropWaste(events[1..]);
        if Step(server, s, events[0]).Ok? {
          WasteIsInert(server, Step(server, s, events[0]).value.0, events[1..]);
        }
      }
    }
  }

  lemma {:induction false} DroppingKeepsFrames(events: seq<Event>)
    ensures ClientFrames(DropWaste(events)) == NonWaste(ClientFrames(events))
    decreases |events|
  {
    if events != [] {
      DroppingKeepsFrames(events[1..]);
      if !IsWaste(events[0]) {
        assert DropWaste(events)[1..] == DropWaste(events[1..]);
      }
      if events[0].FromClient? {
        assert ClientFrames(events)[1..] == ClientFrames(events[1..]);
      }
    }
  }

  /**
   End to end: a server that decodes what a shaping client has put on the wire does, to the last
   effect, what it would do on receiving just the frames the client submitted.
   */
  lemma ShapingIsInvisible(w: ClientWriter, server: Server, s: State, events: seq<Event>)
    requires w.Valid() && w.buffer == [] && ClientFrames(events) == DecodeFrames(w.wire).0
    ensures ClientFrames(DropWaste(events)) == NonWaste(w.submitted)
    ensures Run(server, s, events) == Run(server, s, DropWaste(events))
  {
    PaddingIsTransparent(w);
    DroppingKeepsFrames(events);
    WasteIsInert(server, s, events);
    assert NonWaste(DecodeFrames([]).0) == [];
  }

  lemma WasteStep(server: Server, s: State, events: seq<Event>)
    requires events != [] && events[0].FromClient? && events[0].frame.command == CMD_WASTE
    ensures Run(server, s, events) == Run(server, s, events[1..])
  {
    var rest := Run(server, s, events[1..]);
    if rest.Ok? {
      assert [] + rest.value.1 == rest.value.1;
    }
  }

  // Acknowledgements

  function SynAcks(es: seq<Effect>, id: u32): (n: nat) {
    if es == [] then 0 else (if es[0] == SynAck(id) then 1 else 0) + SynAcks(es[1..], id)
  }

  lemma {:induction false} SynAcksAppend(a: seq<Effect>, b: seq<Effect>, id: u32)
    ensures SynAcks(a + b, id) == SynAcks(a, id) + SynAcks(b, id)
  {
    if a == [] {
      assert a + b == b;
    } else {
      assert (a + b)[1..] == a[1..] + b;
      SynAcksAppend(a[1..], b, id);
    }
  }

  /** A client FIN for the stream, or a task frame, which is never an acknowledgement. */
  predicate NoFinFor(events: seq<Event>, id: u32) {
    forall i :: 0 <= i < |events| ==>
      match events[i]
      case FromClient(f, _, _) => !(f.command == CMD_FIN && f.streamId == id)
      case FromTask(_, command, _) => command == CMD_PSH || command == CMD_FIN
  }

  function Bit(b: bool): nat {
    if b then 1 else 0
  }

  lemma {:induction false} NoSynAcks(es: seq<Effect>, id: u32)
    requires SynAck(id) !in es
    ensures SynAcks(es, id) == 0
  {
    if es != [] {
      NoSynAcks(es[1..], id);
    }
  }

  lemma AcknowledgeSynAcks(s: State, own: u32, id: u32)
    ensures var (s', es) := Acknowledge(s, own);
            && Bit(id in s.synacked) + SynAcks(es, id) == Bit(id in s'.synacked)
            && (SynAcks(es, id) > 0 ==> s.clientV2)
  {
    assert [SynAck(own)][1..] == [];
  }

  lemma PushSynAcks(s: State, own: u32, data: seq<byte>, dialOk: bool, writeOk: bool, id: u32)
    ensures var (s', es) := OnPush(s, own, data, dialOk, writeOk);
            && Bit(id in s.synacked) + SynAcks(es, id) == Bit(id in s'.synacked)
            && (SynAcks(es, id) > 0 ==> s.clientV2)
  {
    var (s', es) := OnPush(s, own, data, dialOk, writeOk);
    var parsed := ParseAddr(SOCKS, data);
    hide ParseAddr, IsMagic;
    if own !in s.streams && parsed.Done? && (IsMagic(parsed.value) || (dialOk && (parsed.used == |data| || writeOk))) {
      var initial := if parsed.used < |data| then [Deliver(own, data[parsed.used..])] else [];
      var before := if IsMagic(parsed.value) then initial else [Dial(own, parsed.value)] + initial;
      var added := s.(streams := s.streams[own := if IsMagic(parsed.value) then Udp else Tcp]);
      AcknowledgeSynAcks(added, own, id);
      NoSynAcks(before, id);
      SynAcksAppend(before, Acknowledge(added, own).1, id);
    } else {
      NoSynAcks(es, id);
    }
  }

  lemma StepSynAcks(server: Server, s: State, e: Event, id: u32)
    requires Step(server, s, e).Ok? && NoFinFor([e], id)
    ensures var (s', es) := Step(server, s, e).value;
            && Bit(id in s.synacked) + SynAcks(es, id) == Bit(id in s'.synacked)
            && (SynAcks(es, id) > 0 ==> s.clientV2)
  {
    hide OnPush, Acknowledge, SettingsValue, AnnouncesV2;
    assert [e][0] == e;
    if e.FromClient? && e.frame.command == CMD_PSH {
      PushSynAcks(s, e.frame.streamId, e.frame.data, e.dialOk, e.writeOk, id);
    } else if e.FromClient? && e.frame.command == CMD_SYN {
      AcknowledgeSynAcks(s, e.frame.streamId, id);
    } else {
      NoSynAcks(Step(server, s, e).value.1, id);
    }
  }

  /** Between two FINs of the client for a stream, at most one acknowledgement is sent for it, exactly when it becomes acknowledged. */
  lemma {:induction false} AcknowledgedOnce(server: Server, s: State, events: seq<Event>, id: u32)
    requires Run(server, s, events).Ok? && NoFinFor(events, id)
    ensures var (s', es) := Run(server, s, events).value;
            Bit(id in s.synacked) + SynAcks(es, id) == Bit(id in s'.synacked)
    decreases |events|
  {
    hide Step;
    if events != [] {
      assert NoFinFor([events[0]], id) by {
        assert events[0] == [events[0]][0];
      }
      StepSynAcks(server, s, events[0], id);
      var (s1, first) := Step(server, s, events[0]).value;
      AcknowledgedOnce(server, s1, events[1..], id);
      SynAcksAppend(first, Run(server, s1, events[1..]).value.1, id);
    }
  }

  /** The version announced by the last SETTINGS. */
  predicate LastAnnouncedV2(before: bool, events: seq<Event>)
    decreases |events|
  {
    if events == [] then before
    else
      var e := events[|events| - 1];
      if e.FromClient? && e.frame.command == CMD_SETTINGS then AnnouncesV2(e.frame.data)
      else LastAnnouncedV2(before, events[..|events| - 1])
  }

  lemma {:induction false} V2IsLastAnnounced(server: Server, s: State, events: seq<Event>)
    requires Run(server, s, events).Ok?
    ensures Run(server, s, events).value.0.clientV2 == LastAnnouncedV2(s.clientV2, events)
    decreases |events|
  {
    if events != [] {
      var front, e := events[..|events| - 1], events[|events| - 1];
      assert events == front + [e];
      RunSnoc(server, s, front, e);
      V2IsLastAnnounced(server, s, front);
      StepV2(server, Run(server, s, front).value.0, e);
    }
  }

  lemma StepV2(server: Server, s: State, e: Event)
    requires Step(server, s, e).Ok?
    ensures Step(server, s, e).value.0.clientV2 ==
            if e.FromClient? && e.frame.command == CMD_SETTINGS then AnnouncesV2(e.frame.data) else s.clientV2
  {
    hide ParseAddr, SettingsValue, AnnouncesV2, IsMagic;
  }

  /** An acknowledgement is sent only while the client's last SETTINGS announces version 2 or later. */
  lemma AcknowledgedOnlyUnderV2(server: Server, events: seq<Event>, e: Event, id: u32)
    requires Run(server, START, events).Ok? && Step(server, Run(server, START, events).value.0, e).Ok?
    requires NoFinFor([e], id) && SynAcks(Step(server, Run(server, START, events).value.0, e).value.1, id) > 0
    ensures LastAnnouncedV2(false, events)
  {
    V2IsLastAnnounced(server, START, events);
    StepSynAcks(server, Run(server, START, events).value.0, e, id);
  }

  // The loop

  /** Streams' reader tasks send data and FINs only. */
  predicate TasksRelay(events: seq<Event>) {
    forall i :: 0 <= i < |events| && events[i].FromTask? ==> events[i].command == CMD_PSH || events[i].command == CMD_FIN
  }

  predicate IsFin(e: Event, id: u32) {
    e.FromClient? && e.frame.command == CMD_FIN && e.frame.streamId == id
  }

  function Fins(events: seq<Event>, id: u32): (n: nat)
    decreases |events|
  {
    if events == [] then 0 else Bit(IsFin(events[0], id)) + Fins(events[1..], id)
  }

  lemma FinSynAcks(server: Server, s: State, e: Event, id: u32)
    requires IsFin(e, id)
    ensures Step(server, s, e).Ok? && SynAcks(Step(server, s, e).value.1, id) == 0
  {}

  /** Over any run, a stream is acknowledged at most once more than the client ended it. */
  lemma {:induction false} AcknowledgedPerFin(server: Server, s: State, events: seq<Event>, id: u32)
    requires Run(server, s, events).Ok? && TasksRelay(events)
    ensures var (t, es) := Run(server, s, events).value;
            Bit(id in s.synacked) + SynAcks(es, id) <= Bit(id in t.synacked) + Fins(events, id)
    decreases |events|
  {
    if events != [] {
      var e := events[0];
      if IsFin(e, id) {
        FinSynAcks(server, s, e, id);
      } else {
        assert NoFinFor([e], id) by {
          assert [e][0] == events[0];
        }
        StepSynAcks(server, s, e, id);
      }
      hide Step, IsFin;
      var (s1, first) := Step(server, s, e).value;
      assert TasksRelay(events[1..]);
      AcknowledgedPerFin(server, s1, events[1..], id);
      SynAcksAppend(first, Run(server, s1, events[1..]).value.1, id);
    }
  }

  lemma {:induction false} FailedForGood(server: Server, s: State, a: seq<Event>, b: seq<Event>)
    requires Run(server, s, a).Err?
    ensures Run(server, s, a + b).Err?
    decreases |a|
  {
    hide Step;
    if a != [] {
      assert (a + b)[1..] == a[1..] + b;
      if Step(server, s, a[0]).Ok? && Run(server, Step(server, s, a[0]).value.0, a[1..]).Err? {
        FailedForGood(server, Step(server, s, a[0]).value.0, a[1..], b);
      }
    }
  }

  /**
   The loop of one session: it survives exactly when the run does, has then done what the run calls
   for, and has acknowledged no stream more often than the client ended and reopened it.
   */
  method Serve(server: Server, events: seq<Event>) returns (ok: bool, effects: seq<Effect>)
    ensures ok <==> Run(server, START, events).Ok?
    ensures ok ==> effects == Run(server, START, events).value.1
    ensures ok && TasksRelay(events) ==> forall id :: SynAcks(effects, id) <= 1 + Fins(events, id)
  {
    var session := new ServerSession(server);
    var i := 0;
    while i < |events|
      invariant 0 <= i <= |events|
      invariant session.Valid() && session.server == server && session.history == events[..i]
    {
      hide Run;
      assert events[..i] + [events[i]] == events[..i + 1];
      ok := session.Handle(events[i]);
      i := i + 1;
      if !ok {
        assert events == events[..i] + events[i..];
        FailedForGood(server, START, events[..i], events[i..]);
        return false, session.effects;
      }
    }
    assert events[..i] == events;
    ok, effects := true, session.effects;
    if TasksRelay(events) {
      forall id ensures SynAcks(effects, id) <= 1 + Fins(events, id) {
        AcknowledgedPerFin(server, START, events, id);
      }
    }
  }
}
