/** What the dispatch of `AnytlsServer` does for its streams, in terms of the frames the client sends. */
module AnytlsStreams {
  import opened Bytes
  import opened Addresses
  import opened AnytlsFrames
  import opened AnytlsSettings
  import opened AnytlsServer

  // What is seen from outside

  /** The targets dialled for a stream. */
  function Dials(es: seq<Effect>, id: u32): (r: seq<TargetAddr>) {
    if es == [] then []
    else if es[0].Dial? && es[0].dialId == id then [es[0].target] + Dials(es[1..], id)
    else Dials(es[1..], id)
  }

  /** The bytes handed on for a stream. */
  function Delivered(es: seq<Effect>, id: u32): (r: seq<byte>) {
    if es == [] then []
    else if es[0].Deliver? && es[0].deliverId == id then es[0].bytes + Delivered(es[1..], id)
    else Delivered(es[1..], id)
  }

  predicate IsPush(e: Event, id: u32) {
    e.FromClient? && e.frame.command == CMD_PSH && e.frame.streamId == id
  }

  /** The bytes the client pushes on a stream. */
  function Pushed(events: seq<Event>, id: u32): (r: seq<byte>) {
    if events == [] then []
    else if IsPush(events[0], id) then events[0].frame.data + Pushed(events[1..], id)
    else Pushed(events[1..], id)
  }

  lemma {:induction false} SeenAppend(a: seq<Effect>, b: seq<Effect>, id: u32)
    ensures Dials(a + b, id) == Dials(a, id) + Dials(b, id)
    ensures Delivered(a + b, id) == Delivered(a, id) + Delivered(b, id)
  {
    if a == [] {
      assert a + b == b;
    } else {
      assert (a + b)[1..] == a[1..] + b;
      SeenAppend(a[1..], b, id);
    }
  }

  // Opening

  /** `data` is the encoding of `target`, followed by `rest`. */
  function LowerAll(s: seq<byte>): (r: seq<byte>) {
    if s == [] then [] else [if 65 <= s[0] <= 90 then s[0] + 32 else s[0]] + LowerAll(s[1..])
  }

  lemma {:induction false} LowerAllAt(s: seq<byte>)
    ensures |LowerAll(s)| == |s| && forall i :: 0 <= i < |s| ==> LowerAll(s)[i] == Lower(s[i])
  {
    if s != [] {
      LowerAllAt(s[1..]);
      assert forall i :: 0 < i < |s| ==> s[i] == s[1..][i - 1];
    }
  }

  lemma LowerEqual(a: seq<byte>, b: seq<byte>)
    requires forall i :: 0 <= i < |b| ==> Lower(b[i]) == b[i]
    ensures EqualIgnoringCase(a, b) <==> LowerAll(a) == b
  {
    LowerAllAt(a);
    hide LowerAll, Lower;
  }

  /** The UDP magic is one host, in capitals or not, with port 0; any other target is dialled. */
  lemma MagicExactlyWhen(t: TargetAddr)
    ensures IsMagic(t) <==> t.Domain? && LowerAll(t.host) == MAGIC_HOST && t.hostPort == 0
  {
    if t.Domain? {
      LowerEqual(t.host, MAGIC_HOST);
    }
  }

  ghost predicate Opens(data: seq<byte>, target: TargetAddr, rest: seq<byte>) {
    EncodeAddr(SOCKS, target).Ok? && data == EncodeAddr(SOCKS, target).value + rest
  }

  lemma OpensParses(data: seq<byte>, target: TargetAddr, rest: seq<byte>)
    requires Opens(data, target, rest)
    ensures ParseAddr(SOCKS, data).Done? && ParseAddr(SOCKS, data).value == target && data[ParseAddr(SOCKS, data).used..] == rest
  {
    hide ParseAddr, EncodeAddr;
    EncodeParse(SOCKS, target, rest);
    DropPrefix(EncodeAddr(SOCKS, target).value, rest);
  }

  lemma ParsesOpens(data: seq<byte>)
    requires ParseAddr(SOCKS, data).Done?
    ensures Opens(data, ParseAddr(SOCKS, data).value, data[ParseAddr(SOCKS, data).used..])
  {
    hide ParseAddr, EncodeAddr;
    ParseEncode(SOCKS, data);
    TakeDrop(data, ParseAddr(SOCKS, data).used);
  }

  function DialOf(e: Effect, id: u32): seq<TargetAddr> {
    if e.Dial? && e.dialId == id then [e.target] else []
  }

  function DeliveryOf(e: Effect, id: u32): seq<byte> {
    if e.Deliver? && e.deliverId == id then e.bytes else []
  }

  lemma OneSeen(e: Effect, id: u32)
    ensures Dials([e], id) == DialOf(e, id) && Delivered([e], id) == DeliveryOf(e, id)
  {
    assert [e][1..] == [];
  }

  predicate Unseen(es: seq<Effect>, id: u32) {
    forall i :: 0 <= i < |es| ==> !(es[i].Dial? && es[i].dialId == id) && !(es[i].Deliver? && es[i].deliverId == id)
  }

  lemma {:induction false} NoneSeen(es: seq<Effect>, id: u32)
    requires Unseen(es, id)
    ensures Dials(es, id) == [] && Delivered(es, id) == []
  {
    if es != [] {
      NoneSeen(es[1..], id);
    }
  }

  /** The first bytes of a stream, if there are any. */
  function First(id: u32, rest: seq<byte>): seq<Effect> {
    if rest == [] then [] else [Deliver(id, rest)]
  }

  lemma FirstSeen(id: u32, rest: seq<byte>)
    ensures Dials(First(id, rest), id) == [] && Delivered(First(id, rest), id) == rest && Fin(id) !in First(id, rest)
  {
    if rest != [] {
      OneSeen(Deliver(id, rest), id);
    }
  }

  lemma AcksSeen(s: State, id: u32)
    ensures var (t, acks) := Acknowledge(s, id);
            && Dials(acks, id) == [] && Delivered(acks, id) == [] && Fin(id) !in acks
            && t.streams == s.streams && (s.clientV2 ==> id in t.synacked)
  {
    NoneSeen(Acknowledge(s, id).1, id);
  }

  lemma OpenCases(s: State, id: u32, data: seq<byte>, dialOk: bool, writeOk: bool, target: TargetAddr, rest: seq<byte>)
    requires id !in s.streams && Opens(data, target, rest)
    ensures OnPush(s, id, data, dialOk, writeOk) ==
            if IsMagic(target) then
              var (t, acks) := Acknowledge(s.(streams := s.streams[id := Udp]), id);
              (t, First(id, rest) + acks)
            else if dialOk && (rest == [] || writeOk) then
              var (t, acks) := Acknowledge(s.(streams := s.streams[id := Tcp]), id);
              (t, [Dial(id, target)] + First(id, rest) + acks)
            else (s, [Dial(id, target)] + [Fin(id)])
  {
    OpensParses(data, target, rest);
    hide ParseAddr, EncodeAddr, IsMagic, Acknowledge;
    assert |rest| == |data| - ParseAddr(SOCKS, data).used;
    assert [Dial(id, target)] + [Fin(id)] == [Dial(id, target), Fin(id)];
  }

  /**
   The first push of a stream: its data is an address and the first bytes for it. The magic address
   opens a UDP stream; any other is dialled, and the stream stands exactly if the dial succeeds and
   so does the write of those bytes, if there are any. Otherwise nothing is handed on and a FIN is sent.
   */
  lemma PushOpens(s: State, id: u32, data: seq<byte>, dialOk: bool, writeOk: bool, target: TargetAddr, rest: seq<byte>)
    requires id !in s.streams && Opens(data, target, rest)
    ensures var (t, es) := OnPush(s, id, data, dialOk, writeOk);
            var stands := IsMagic(target) || (dialOk && (rest == [] || writeOk));
            && t.streams == (if stands then s.streams[id := if IsMagic(target) then Udp else Tcp] else s.streams)
            && Dials(es, id) == (if IsMagic(target) then [] else [target])
            && Delivered(es, id) == (if stands then rest else [])
            && (Fin(id) in es <==> !stands)
            && (stands && s.clientV2 ==> id in t.synacked)
  {
    OpenCases(s, id, data, dialOk, writeOk, target, rest);
    hide OnPush, IsMagic, Opens, Dials, Delivered, Acknowledge, First;
    FirstSeen(id, rest);
    OneSeen(Dial(id, target), id);
    OneSeen(Fin(id), id);
    var kind := if IsMagic(target) then Udp else Tcp;
    var with := s.(streams := s.streams[id := kind]);
    AcksSeen(with, id);
    var acks := Acknowledge(with, id).1;
    SeenAppend(First(id, rest), acks, id);
    SeenAppend([Dial(id, target)], First(id, rest), id);
    SeenAppend([Dial(id, target)] + First(id, rest), acks, id);
    SeenAppend([Dial(id, target)], [Fin(id)], id);
  }

  /** Data that begins with no address opens nothing, and is answered by a FIN. */
  lemma PushRefused(s: State, id: u32, data: seq<byte>, dialOk: bool, writeOk: bool)
    requires id !in s.streams && forall target, rest :: !Opens(data, target, rest)
    ensures OnPush(s, id, data, dialOk, writeOk) == (s, [Fin(id)])
  {
    if ParseAddr(SOCKS, data).Done? {
      ParsesOpens(data);
      assert false;
    }
  }

  // Relaying

  /** A stream is left standing by an event unless the client ends it or, being TCP, its write fails. */
  predicate KeepsOpen(s: State, e: Event, id: u32)
    requires id in s.streams
  {
    e.FromClient? && e.frame.streamId == id ==>
      e.frame.command != CMD_FIN && (e.frame.command == CMD_PSH && s.streams[id].Tcp? ==> e.writeOk)
  }

  /** While it stands, all that is pushed on a stream is handed on; the end of it is noticed at once. */
  lemma RelayStep(server: Server, s: State, e: Event, id: u32)
    requires id in s.streams && Step(server, s, e).Ok?
    ensures var (t, es) := Step(server, s, e).value;
            && (if KeepsOpen(s, e, id) then id in t.streams && t.streams[id] == s.streams[id] else id !in t.streams)
            && Dials(es, id) == []
            && (KeepsOpen(s, e, id) ==> Delivered(es, id) == Pushed([e], id))
            && (!KeepsOpen(s, e, id) ==> Delivered(es, id) == [] && (IsPush(e, id) ==> Fin(id) in es))
  {
    assert [e][1..] == [];
    hide SettingsValue, AnnouncesV2;
    if IsPush(e, id) {
      OneSeen(Deliver(id, e.frame.data), id);
      OneSeen(Fin(id), id);
    } else {
      NotSeen(server, s, e, id);
      hide OnPush, Dials, Delivered;
    }
  }

  /** What is not a push of the stream dials and delivers nothing for it. */
  lemma NotSeen(server: Server, s: State, e: Event, id: u32)
    requires Step(server, s, e).Ok? && !IsPush(e, id)
    ensures var (t, es) := Step(server, s, e).value;
            && Dials(es, id) == [] && Delivered(es, id) == []
            && (e.FromTask? || e.frame.streamId != id ==>
                  (id in t.streams <==> id in s.streams) && (id in s.streams ==> t.streams[id] == s.streams[id]))
  {
    hide SettingsValue, AnnouncesV2, OnPush;
    if e.FromClient? && e.frame.command == CMD_PSH {
      PushIsOwn(s, e.frame.streamId, e.frame.data, e.dialOk, e.writeOk, id);
    }
    NoneSeen(Step(server, s, e).value.1, id);
  }

  /** The stream stands before and after every event. */
  ghost predicate StandsThrough(server: Server, s: State, events: seq<Event>, id: u32)
    decreases |events|
  {
    id in s.streams &&
    (events == [] || (Step(server, s, events[0]).Ok? && StandsThrough(server, Step(server, s, events[0]).value.0, events[1..], id)))
  }

  lemma {:induction false} RelaysWhileOpen(server: Server, s: State, events: seq<Event>, id: u32)
    requires StandsThrough(server, s, events, id)
    ensures Run(server, s, events).Ok?
    ensures var (t, es) := Run(server, s, events).value;
            && id in t.streams && t.streams[id] == s.streams[id]
            && Dials(es, id) == [] && Delivered(es, id) == Pushed(events, id)
    decreases |events|
  {
    hide Step, Dials, Delivered, KeepsOpen;
    if events == [] {
      NoneSeen([], id);
    } else {
      RelayStep(server, s, events[0], id);
      var (s1, first) := Step(server, s, events[0]).value;
      assert id in s1.streams;
      RelaysWhileOpen(server, s1, events[1..], id);
      SeenAppend(first, Run(server, s1, events[1..]).value.1, id);
      assert [events[0]][1..] == [];
    }
  }

  /** Nothing the client sends on a stream is lost or altered, and nothing is added. */
  ghost predicate Carries(kind: Kind, es: seq<Effect>, events: seq<Event>, id: u32) {
    if kind.Tcp?
    then |Dials(es, id)| == 1 && Opens(Pushed(events, id), Dials(es, id)[0], Delivered(es, id))
    else Dials(es, id) == [] && exists target :: IsMagic(target) && Opens(Pushed(events, id), target, Delivered(es, id))
  }

  /**
   From the push that opens a stream, for as long as it stands, in any session: one target is dialled,
   and what the client has pushed is that target's encoding followed by exactly the bytes handed on.
   */
  lemma StreamCarries(server: Server, s: State, events: seq<Event>, id: u32)
    requires events != [] && IsPush(events[0], id) && id !in s.streams && Step(server, s, events[0]).Ok?
    requires StandsThrough(server, Step(server, s, events[0]).value.0, events[1..], id)
    ensures Run(server, s, events).Ok?
    ensures var (t, es) := Run(server, s, events).value;
            id in t.streams && Carries(t.streams[id], es, events, id)
  {
    var e := events[0];
    var (s1, first) := Step(server, s, e).value;
    assert (s1, first) == OnPush(s, id, e.frame.data, e.dialOk, e.writeOk) by {
      hide OnPush;
    }
    hide Step;
    RelaysWhileOpen(server, s1, events[1..], id);
    var (t, more) := Run(server, s1, events[1..]).value;
    SeenAppend(first, more, id);
    if target, rest :| Opens(e.frame.data, target, rest) {
      PushOpens(s, id, e.frame.data, e.dialOk, e.writeOk, target, rest);
      hide OnPush, Dials, Delivered, IsMagic, EncodeAddr;
      Associate(EncodeAddr(SOCKS, target).value, rest, Delivered(more, id));
      assert Opens(Pushed(events, id), target, Delivered(first + more, id));
      assert [target] + [] == [target];
    } else {
      PushRefused(s, id, e.frame.data, e.dialOk, e.writeOk);
    }
  }

  lemma FinStep(server: Server, s: State, f: Frame, dialOk: bool, writeOk: bool)
    requires f.command == CMD_FIN
    ensures Step(server, s, FromClient(f, dialOk, writeOk)) ==
            Ok((s.(streams := s.streams - {f.streamId}, synacked := s.synacked - {f.streamId}), []))
  {}

  lemma RunTwo(server: Server, s: State, a: Event, b: Event)
    requires Step(server, s, a).Ok? && Step(server, Step(server, s, a).value.0, b).Ok?
    ensures var (t, first) := Step(server, s, a).value;
            var (u, second) := Step(server, t, b).value;
            Run(server, s, [a, b]) == Ok((u, first + second))
  {
    hide Step;
    assert [a, b] == [] + [a] + [b];
    RunSnoc(server, s, [] + [a], b);
    RunSnoc(server, s, [], a);
    assert [] + Step(server, s, a).value.1 == Step(server, s, a).value.1;
  }

  /** Whatever a stream was, after a FIN its next data is a new request: its target is dialled, and acknowledged, anew. */
  lemma FinForgets(server: Server, s: State, fin: Event, push: Event, target: TargetAddr, rest: seq<byte>)
    requires fin.FromClient? && fin.frame.command == CMD_FIN && IsPush(push, fin.frame.streamId) && s.settingsSeen
    requires Opens(push.frame.data, target, rest) && !IsMagic(target) && push.dialOk && push.writeOk
    ensures var id, r := fin.frame.streamId, Run(server, s, [fin, push]);
            && r.Ok? && Dials(r.value.1, id) == [target] && Delivered(r.value.1, id) == rest
            && (s.clientV2 ==> SynAck(id) in r.value.1)
  {
    var id := fin.frame.streamId;
    FinStep(server, s, fin.frame, fin.dialOk, fin.writeOk);
    var t := Step(server, s, fin).value.0;
    assert Step(server, t, push) == Ok(OnPush(t, id, push.frame.data, true, true)) by {
      hide OnPush;
    }
    PushOpens(t, id, push.frame.data, true, true, target, rest);
    OpenCases(t, id, push.frame.data, true, true, target, rest);
    hide Step, OnPush, Opens, IsMagic;
    RunTwo(server, s, fin, push);
    var es := OnPush(t, id, push.frame.data, true, true).1;
    assert [] + es == es;
  }

  /** Under version 2 a SYN leaves its stream acknowledged, so that, by `AcknowledgedOnce`, it has been once. */
  lemma SynAcknowledged(server: Server, s: State, f: Frame, dialOk: bool, writeOk: bool)
    requires f.command == CMD_SYN && Step(server, s, FromClient(f, dialOk, writeOk)).Ok?
    ensures var t := Step(server, s, FromClient(f, dialOk, writeOk)).value.0;
            (s.clientV2 ==> f.streamId in t.synacked) && t.streams == s.streams
  {}

  // Heartbeats

  function Beats(events: seq<Event>): (r: seq<u32>) {
    if events == [] then []
    else if events[0].FromClient? && events[0].frame.command == CMD_HEART_REQUEST then [events[0].frame.streamId] + Beats(events[1..])
    else Beats(events[1..])
  }

  function Answers(es: seq<Effect>): (r: seq<u32>) {
    if es == [] then []
    else if es[0].Send? && es[0].frame.command == CMD_HEART_RESPONSE then [es[0].frame.streamId] + Answers(es[1..])
    else Answers(es[1..])
  }

  lemma {:induction false} AnswersAppend(a: seq<Effect>, b: seq<Effect>)
    ensures Answers(a + b) == Answers(a) + Answers(b)
  {
    if a == [] {
      assert a + b == b;
    } else {
      assert (a + b)[1..] == a[1..] + b;
      AnswersAppend(a[1..], b);
    }
  }

  predicate Unanswering(es: seq<Effect>) {
    forall i :: 0 <= i < |es| ==> !(es[i].Send? && es[i].frame.command == CMD_HEART_RESPONSE)
  }

  lemma {:induction false} NoAnswers(es: seq<Effect>)
    requires Unanswering(es)
    ensures Answers(es) == []
  {
    if es != [] {
      NoAnswers(es[1..]);
    }
  }

  lemma PushUnanswering(s: State, id: u32, data: seq<byte>, dialOk: bool, writeOk: bool)
    ensures Unanswering(OnPush(s, id, data, dialOk, writeOk).1)
  {
    hide ParseAddr, IsMagic;
  }

  lemma BeatStep(server: Server, s: State, e: Event)
    requires Step(server, s, e).Ok? && TasksRelay([e])
    ensures Answers(Step(server, s, e).value.1) == Beats([e])
  {
    assert [e][0] == e && [e][1..] == [];
    hide SettingsValue, AnnouncesV2, OnPush;
    if e.FromClient? && e.frame.command == CMD_PSH {
      PushUnanswering(s, e.frame.streamId, e.frame.data, e.dialOk, e.writeOk);
    }
    if !(e.FromClient? && e.frame.command == CMD_HEART_REQUEST) {
      NoAnswers(Step(server, s, e).value.1);
    }
  }

  /** Every heartbeat request is answered, in order, and nothing else is answered so. */
  lemma {:induction false} HeartbeatsAnswered(server: Server, s: State, events: seq<Event>)
    requires Run(server, s, events).Ok? && TasksRelay(events)
    ensures Answers(Run(server, s, events).value.1) == Beats(events)
    decreases |events|
  {
    hide Step;
    if events != [] {
      assert TasksRelay([events[0]]) by {
        assert [events[0]][0] == events[0];
      }
      assert TasksRelay(events[1..]);
      BeatStep(server, s, events[0]);
      var (s1, first) := Step(server, s, events[0]).value;
      HeartbeatsAnswered(server, s1, events[1..]);
      AnswersAppend(first, Run(server, s1, events[1..]).value.1);
      assert [events[0]][1..] == [];
    }
  }

  // Replies

  /** The data sent to the client on a stream. */
  function SentBack(es: seq<Effect>, id: u32): (r: seq<byte>) {
    if es == [] then []
    else (if es[0].Send? && es[0].frame.command == CMD_PSH && es[0].frame.streamId == id then es[0].frame.data else []) + SentBack(es[1..], id)
  }

  /** The data that the reader task of a stream hands over, as far as a frame can hold it. */
  function HandedOver(events: seq<Event>, id: u32): (r: seq<byte>) {
    if events == [] then []
    else
      (if events[0].FromTask? && events[0].id == id && events[0].command == CMD_PSH && |events[0].data| <= 0xFFFF
       then events[0].data else []) + HandedOver(events[1..], id)
  }

  lemma {:induction false} SentBackAppend(a: seq<Effect>, b: seq<Effect>, id: u32)
    ensures SentBack(a + b, id) == SentBack(a, id) + SentBack(b, id)
  {
    if a == [] {
      assert a + b == b;
    } else {
      assert (a + b)[1..] == a[1..] + b;
      SentBackAppend(a[1..], b, id);
    }
  }

  predicate Silent(es: seq<Effect>) {
    forall i :: 0 <= i < |es| ==> !(es[i].Send? && es[i].frame.command == CMD_PSH)
  }

  lemma {:induction false} SilentSendsNothing(es: seq<Effect>, id: u32)
    requires Silent(es)
    ensures SentBack(es, id) == []
  {
    if es != [] {
      SilentSendsNothing(es[1..], id);
    }
  }

  lemma PushSilent(s: State, id: u32, data: seq<byte>, dialOk: bool, writeOk: bool)
    ensures Silent(OnPush(s, id, data, dialOk, writeOk).1)
  {
    hide ParseAddr, IsMagic;
  }

  lemma SettingsSilent(server: Server, s: State, data: seq<byte>)
    requires OnSettings(server, s, data).Ok?
    ensures Silent(OnSettings(server, s, data).value.1)
  {
    hide SettingsValue, AnnouncesV2;
  }

  lemma ClientSilent(server: Server, s: State, e: Event)
    requires e.FromClient? && Step(server, s, e).Ok?
    ensures Silent(Step(server, s, e).value.1)
  {
    hide OnPush, OnSettings;
    if e.frame.command == CMD_PSH {
      PushSilent(s, e.frame.streamId, e.frame.data, e.dialOk, e.writeOk);
    } else if e.frame.command == CMD_SETTINGS {
      SettingsSilent(server, s, e.frame.data);
    }
  }

  lemma TaskReply(server: Server, s: State, e: Event, id: u32)
    requires e.FromTask?
    ensures Step(server, s, e).Ok? && SentBack(Step(server, s, e).value.1, id) == HandedOver([e], id)
  {
    assert [e][1..] == [];
    assert [Send(Frame(e.command, e.id, e.data))][1..] == [];
    assert e.data + [] == e.data;
  }

  lemma ReplyStep(server: Server, s: State, e: Event, id: u32)
    requires Step(server, s, e).Ok?
    ensures SentBack(Step(server, s, e).value.1, id) == HandedOver([e], id)
  {
    hide Step, Silent, SentBack;
    if e.FromTask? {
      TaskReply(server, s, e, id);
    } else {
      ClientSilent(server, s, e);
      SilentSendsNothing(Step(server, s, e).value.1, id);
      assert [e][1..] == [] && HandedOver([], id) == [];
    }
  }

  lemma FirstHandedOver(events: seq<Event>, id: u32)
    requires events != []
    ensures HandedOver(events, id) == HandedOver([events[0]], id) + HandedOver(events[1..], id)
  {
    assert [events[0]][1..] == [];
    assert HandedOver([events[0]][1..], id) == [];
  }

  /** On every stream the client is sent exactly what that stream's reader task hands over, in order. */
  lemma {:induction false} RepliesRelayed(server: Server, s: State, events: seq<Event>, id: u32)
    requires Run(server, s, events).Ok?
    ensures SentBack(Run(server, s, events).value.1, id) == HandedOver(events, id)
    decreases |events|
  {
    hide Step;
    if events != [] {
      ReplyStep(server, s, events[0], id);
      var (s1, first) := Step(server, s, events[0]).value;
      RepliesRelayed(server, s1, events[1..], id);
      hide SentBack, HandedOver;
      SentBackAppend(first, Run(server, s1, events[1..]).value.1, id);
      FirstHandedOver(events, id);
    }
  }

  // When a session ends

  predicate IsSettings(e: Event) {
    e.FromClient? && e.frame.command == CMD_SETTINGS
  }

  predicate Announced(events: seq<Event>) {
    exists i :: 0 <= i < |events| && IsSettings(events[i])
  }

  /** After `before`, event `e` ends the session: a stream is used before any settings, or an update does not fit a frame. */
  predicate Fatal(server: Server, before: seq<Event>, e: Event) {
    && e.FromClient?
    && (|| ((e.frame.command == CMD_SYN || e.frame.command == CMD_PSH) && !Announced(before))
        || (IsSettings(e) && SettingsValue(e.frame.data, KEY_MD5) != Some(server.md5) && |server.scheme| > MAX_DATA))
  }

  ghost predicate Ended(server: Server, events: seq<Event>) {
    exists i :: 0 <= i < |events| && Fatal(server, events[..i], events[i])
  }

  lemma EndedSnoc(server: Server, events: seq<Event>, e: Event)
    ensures Ended(server, events + [e]) <==> Ended(server, events) || Fatal(server, events, e)
    ensures Announced(events + [e]) <==> Announced(events) || IsSettings(e)
  {
    var all, n := events + [e], |events|;
    assert all[..n] == events && all[n] == e;
    assert forall i :: 0 <= i < n ==> all[..i] == events[..i] && all[i] == events[i];
    hide Fatal;
    if i :| 0 <= i < n && Fatal(server, events[..i], events[i]) {
      assert Fatal(server, all[..i], all[i]);
    }
    if i :| 0 <= i < |all| && Fatal(server, all[..i], all[i]) {
      assert i < n ==> Fatal(server, events[..i], events[i]);
    }
    if i :| 0 <= i < n && IsSettings(events[i]) {
      assert IsSettings(all[i]);
    }
  }

  lemma StepEnds(server: Server, before: seq<Event>, s: State, e: Event)
    requires s.settingsSeen <==> Announced(before)
    ensures Step(server, s, e).Err? <==> Fatal(server, before, e)
    ensures Step(server, s, e).Ok? ==> (Step(server, s, e).value.0.settingsSeen <==> s.settingsSeen || IsSettings(e))
  {
    hide SettingsValue, AnnouncesV2, ParseAddr, IsMagic;
  }

  /** A session survives exactly as long as no such event comes. */
  lemma {:induction false} SurvivesExactlyWhen(server: Server, events: seq<Event>)
    ensures Run(server, START, events).Err? <==> Ended(server, events)
    ensures Run(server, START, events).Ok? ==> (Run(server, START, events).value.0.settingsSeen <==> Announced(events))
    decreases |events|
  {
    hide Step, Fatal;
    if events != [] {
      var n := |events| - 1;
      assert events == events[..n] + [events[n]];
      SurvivesExactlyWhen(server, events[..n]);
      RunSnoc(server, START, events[..n], events[n]);
      EndedSnoc(server, events[..n], events[n]);
      if Run(server, START, events[..n]).Ok? {
        StepEnds(server, events[..n], Run(server, START, events[..n]).value.0, events[n]);
      }
    }
  }
}
