/**
 The UDP association of src/protocol/socks5/inbound.rs (section 7 of RFC 1928).

 The client's UDP address is learned from the first valid packet that comes from the TCP
 peer's IP and, if it asked for one, from the requested port.
 */
module UdpAssociation {
  import opened Bytes
  import opened Addresses
  import opened Socks5Codec

  /** Milliseconds. */
  const IDLE_TIMEOUT: nat := 300_000

  /** `IpAddr::to_canonical`: an IPv4-mapped IPv6 address counts as the IPv4 address. */
  function Canonical(ip: IpAddr): (r: IpAddr) {
    if ip.V6? && (forall i :: 0 <= i < 10 ==> ip.v6[i] == 0) && ip.v6[10] == 0xFF && ip.v6[11] == 0xFF
    then V4(ip.v6[12..16])
    else ip
  }

  predicate Expected(peer: SocketAddr, requestedPort: u16, source: SocketAddr) {
    && Canonical(source.ip) == Canonical(peer.ip)
    && (requestedPort == 0 || source.port == requestedPort)
  }

  predicate ClientAllowed(peer: SocketAddr, requestedPort: u16, client: Option<SocketAddr>, source: SocketAddr) {
    Expected(peer, requestedPort, source) && (client.None? || client.value == source)
  }

  /** What the loop wakes up for. `sent` is the outcome of the send that a packet may lead to. */
  datatype Event =
    | ControlByte
    | ControlClosed
    | ReceiveFailed
    | FromRemote(origin: TargetAddr, payload: seq<byte>, sent: bool, at: nat)
    | FromClient(source: SocketAddr, data: seq<byte>, sent: bool, at: nat)
    | Tick(at: nat)

  datatype Traffic = Forwarded(sender: SocketAddr, target: TargetAddr, payload: seq<byte>) | Replied(receiver: SocketAddr, packet: seq<byte>)

  datatype State = State(client: Option<SocketAddr>, lastActivity: nat, ended: bool)

  datatype Setup = Setup(peer: SocketAddr, requestedPort: u16)

  /** One turn of the loop, with the traffic it causes. A send that fails ends the association. */
  function Step(x: Setup, s: State, e: Event): (r: (State, seq<Traffic>)) {
    if s.ended then (s, [])
    else
      match e
      case ControlByte => (s, [])
      case ControlClosed => (s.(ended := true), [])
      case ReceiveFailed => (s.(ended := true), [])
      case Tick(at) => (if at >= s.lastActivity + IDLE_TIMEOUT then s.(ended := true) else s, [])
      case FromRemote(origin, payload, sent, at) =>
        if s.client.None? || EncodeUdpPacket(origin, payload).Err? then (s, [])
        else if !sent then (s.(ended := true), [])
        else (s.(lastActivity := at), [Replied(s.client.value, EncodeUdpPacket(origin, payload).value)])
      case FromClient(source, data, sent, at) =>
        if !ClientAllowed(x.peer, x.requestedPort, s.client, source) || DecodeUdpPacket(data).Err? then (s, [])
        else if !sent then (s.(client := Some(source), ended := true), [])
        else
          var (target, payload) := DecodeUdpPacket(data).value;
          (s.(client := Some(source), lastActivity := at), [Forwarded(source, target, payload)])
  }

  function Run(x: Setup, s: State, events: seq<Event>): (r: (State, seq<Traffic>))
    decreases |events|
  {
    if events == [] then (s, [])
    else
      var (s1, first) := Step(x, s, events[0]);
      var (s2, rest) := Run(x, s1, events[1..]);
      (s2, first + rest)
  }

  /** The sender of the first well-formed packet from where the client is expected, before the association ends. */
  function FirstClaim(x: Setup, s: State, events: seq<Event>): (r: Option<SocketAddr>)
    decreases |events|
  {
    if events == [] || s.ended then None
    else if events[0].FromClient? && Expected(x.peer, x.requestedPort, events[0].source) && DecodeUdpPacket(events[0].data).Ok?
    then Some(events[0].source)
    else FirstClaim(x, Step(x, s, events[0]).0, events[1..])
  }

  predicate Concerns(t: Traffic, c: SocketAddr) {
    match t
    case Forwarded(sender, _, _) => sender == c
    case Replied(receiver, _) => receiver == c
  }

  /** Once claimed, an association serves the same address for good. */
  lemma {:induction false} ClaimIsFinal(x: Setup, s: State, events: seq<Event>)
    requires s.client.Some?
    ensures Run(x, s, events).0.client == s.client
    ensures forall i :: 0 <= i < |Run(x, s, events).1| ==> Concerns(Run(x, s, events).1[i], s.client.value)
    decreases |events|
  {
    hide DecodeUdpPacket, EncodeUdpPacket, Canonical;
    if events != [] {
      ClaimIsFinal(x, Step(x, s, events[0]).0, events[1..]);
    }
  }

  /**
   Over every run: the association's address is that of the first valid packet from where the
   client is expected, and all traffic, both ways, is with that address; malformed packets and
   strangers never claim it, and while nobody has claimed it there is no traffic.
   */
  lemma {:induction false} AssociationIsSafe(x: Setup, s: State, events: seq<Event>)
    requires s.client.None?
    ensures Run(x, s, events).0.client == FirstClaim(x, s, events)
    ensures match FirstClaim(x, s, events) {
              case None => Run(x, s, events).1 == []
              case Some(c) =>
                && Expected(x.peer, x.requestedPort, c)
                && forall i :: 0 <= i < |Run(x, s, events).1| ==> Concerns(Run(x, s, events).1[i], c)
            }
    decreases |events|
  {
    hide DecodeUdpPacket, EncodeUdpPacket, Canonical;
    if events != [] {
      var s1 := Step(x, s, events[0]).0;
      if s1.client.Some? {
        ClaimIsFinal(x, s1, events[1..]);
      } else {
        AssociationIsSafe(x, s1, events[1..]);
        if s.ended {
          EndedClaimsNothing(x, s1, events[1..]);
        }
      }
    }
  }

  lemma EndedClaimsNothing(x: Setup, s: State, events: seq<Event>)
    requires s.ended
    ensures FirstClaim(x, s, events) == None
  {}

  /** What reaches the remote side: every well-formed packet of the client that is sent, decoded, in order, and nothing else. */
  function Requests(x: Setup, s: State, events: seq<Event>, c: SocketAddr): (r: seq<Traffic>)
    decreases |events|
  {
    if events == [] || s.ended then []
    else
      Request(events[0], c) + Requests(x, Step(x, s, events[0]).0, events[1..], c)
  }

  function Request(e: Event, c: SocketAddr): (r: seq<Traffic>) {
    if e.FromClient? && e.source == c && DecodeUdpPacket(e.data).Ok? && e.sent
    then [Forwarded(c, DecodeUdpPacket(e.data).value.0, DecodeUdpPacket(e.data).value.1)]
    else []
  }

  function ForwardedOnly(ts: seq<Traffic>): (r: seq<Traffic>) {
    if ts == [] then []
    else if ts[0].Forwarded? then [ts[0]] + ForwardedOnly(ts[1..])
    else ForwardedOnly(ts[1..])
  }

  lemma {:induction false} ForwardedAppend(a: seq<Traffic>, b: seq<Traffic>)
    ensures ForwardedOnly(a + b) == ForwardedOnly(a) + ForwardedOnly(b)
  {
    if a == [] {
      assert a + b == b;
    } else {
      assert (a + b)[1..] == a[1..] + b;
      ForwardedAppend(a[1..], b);
    }
  }

  lemma {:induction false} NothingLost(x: Setup, s: State, events: seq<Event>, c: SocketAddr)
    requires Expected(x.peer, x.requestedPort, c)
    requires s.client == Some(c) || (s.client.None? && (FirstClaim(x, s, events).None? || FirstClaim(x, s, events) == Some(c)))
    ensures ForwardedOnly(Run(x, s, events).1) == Requests(x, s, events, c)
    decreases |events|
  {
    hide DecodeUdpPacket, EncodeUdpPacket, Canonical;
    if events != [] {
      var (s1, first) := Step(x, s, events[0]);
      if s.ended {
        EndedIsSilent(x, s, events);
      } else {
        TurnForwards(x, s, events, c);
        hide Step, Request;
        NothingLost(x, s1, events[1..], c);
        ForwardedAppend(first, Run(x, s1, events[1..]).1);
      }
    }
  }

  /** One turn forwards the client's packet, if it is one, and leaves the association to that client or open to it. */
  lemma TurnForwards(x: Setup, s: State, events: seq<Event>, c: SocketAddr)
    requires events != [] && !s.ended && Expected(x.peer, x.requestedPort, c)
    requires s.client == Some(c) || (s.client.None? && (FirstClaim(x, s, events).None? || FirstClaim(x, s, events) == Some(c)))
    ensures var (s1, first) := Step(x, s, events[0]);
            && ForwardedOnly(first) == Request(events[0], c)
            && (s1.client == Some(c) ||
                (s1.client.None? && (FirstClaim(x, s1, events[1..]).None? || FirstClaim(x, s1, events[1..]) == Some(c))))
  {
    hide DecodeUdpPacket, EncodeUdpPacket, Canonical;
    var (s1, first) := Step(x, s, events[0]);
    if first != [] {
      assert first[1..] == [];
    }
  }

  lemma {:induction false} EndedIsSilent(x: Setup, s: State, events: seq<Event>)
    requires s.ended
    ensures Run(x, s, events) == (s, [])
    decreases |events|
  {
    if events != [] {
      EndedIsSilent(x, s, events[1..]);
      assert [] + Run(x, s, events[1..]).1 == [];
    }
  }

  // What the history alone says

  /** The IPv4-mapped form of an IPv4 address. */
  function Mapped(o: Octets4): (r: Octets16) {
    [0, 0, 0, 0, 0, 0, 0, 0, 0, 0, 0xFF, 0xFF] + o
  }

  /** Who may claim: for a peer known by an IPv4 address, that address in either form, from the requested port if one was. */
  lemma ExpectedExactlyWhen(o: Octets4, port: u16, requestedPort: u16, source: SocketAddr)
    ensures Expected(SocketAddr(V4(o), port), requestedPort, source) <==>
            (source.ip == V4(o) || source.ip == V6(Mapped(o))) && (requestedPort == 0 || source.port == requestedPort)
    ensures Expected(SocketAddr(V6(Mapped(o)), port), requestedPort, source) <==>
            Expected(SocketAddr(V4(o), port), requestedPort, source)
  {
    assert Mapped(o)[12..16] == o;
    if source.ip.V6? && Canonical(source.ip) == V4(o) {
      assert source.ip.v6 == source.ip.v6[..12] + source.ip.v6[12..16];
      assert source.ip.v6[..12] == [0, 0, 0, 0, 0, 0, 0, 0, 0, 0, 0xFF, 0xFF];
    }
  }

  /** A well-formed packet from where the client is expected. */
  predicate Claims(x: Setup, e: Event) {
    e.FromClient? && Expected(x.peer, x.requestedPort, e.source) && DecodeUdpPacket(e.data).Ok?
  }

  /** The sender of the first such packet. */
  function ClaimedBy(x: Setup, events: seq<Event>): (r: Option<SocketAddr>)
    decreases |events|
  {
    if events == [] then None
    else
      var n := |events| - 1;
      var earlier := ClaimedBy(x, events[..n]);
      if earlier.Some? then earlier else if Claims(x, events[n]) then Some(events[n].source) else None
  }

  /** After `before`, event `e` is a packet to be sent on, one way or the other. */
  ghost predicate Uses(x: Setup, before: seq<Event>, e: Event) {
    match e
    case FromClient(source, _, _, _) => Claims(x, e) && (ClaimedBy(x, before).None? || ClaimedBy(x, before) == Some(source))
    case FromRemote(origin, payload, _, _) =>
      ClaimedBy(x, before).Some? && exists packet :: DecodeUdpPacket(packet) == Ok((origin, payload))
    case _ => false
  }

  predicate WasSent(e: Event) {
    (e.FromClient? || e.FromRemote?) && e.sent
  }

  /** When a packet was last sent on, or the association began. */
  ghost function LastUse(x: Setup, now: nat, events: seq<Event>): (r: nat)
    decreases |events|
  {
    if events == [] then now
    else
      var n := |events| - 1;
      if Uses(x, events[..n], events[n]) && WasSent(events[n]) then events[n].at else LastUse(x, now, events[..n])
  }

  /** After `before`, event `e` ends the association. */
  ghost predicate Ends(x: Setup, now: nat, before: seq<Event>, e: Event) {
    || e.ControlClosed? || e.ReceiveFailed?
    || (e.Tick? && e.at >= LastUse(x, now, before) + 300_000)
    || (Uses(x, before, e) && !WasSent(e))
  }

  ghost predicate Over(x: Setup, now: nat, events: seq<Event>) {
    exists i :: 0 <= i < |events| && Ends(x, now, events[..i], events[i])
  }

  /** The packets sent on before the end. */
  ghost function Carried(x: Setup, now: nat, events: seq<Event>): (r: seq<Event>)
    decreases |events|
  {
    if events == [] then []
    else
      var n := |events| - 1;
      var e := events[n];
      Carried(x, now, events[..n]) + if !Over(x, now, events[..n]) && Uses(x, events[..n], e) && WasSent(e) then [e] else []
  }

  /** What goes out for a packet: what the client's packet decodes to, or a packet that decodes to what the remote side sent. */
  ghost predicate Matches(t: Traffic, e: Event, c: SocketAddr) {
    match t
    case Forwarded(sender, target, payload) =>
      e.FromClient? && e.source == c == sender && DecodeUdpPacket(e.data) == Ok((target, payload))
    case Replied(receiver, packet) =>
      e.FromRemote? && receiver == c && DecodeUdpPacket(packet) == Ok((e.origin, e.payload))
  }

  ghost predicate AllMatch(ts: seq<Traffic>, events: seq<Event>, c: Option<SocketAddr>) {
    |ts| == |events| && (ts != [] ==> c.Some?) && forall k :: 0 <= k < |ts| ==> Matches(ts[k], events[k], c.value)
  }

  lemma {:induction false} RunSnoc(x: Setup, s: State, events: seq<Event>, e: Event)
    ensures var (t, traffic) := Run(x, s, events);
            Run(x, s, events + [e]) == (Step(x, t, e).0, traffic + Step(x, t, e).1)
    decreases |events|
  {
    hide Step;
    if events == [] {
      assert (events + [e])[1..] == [];
      assert Step(x, s, e).1 + [] == [] + Step(x, s, e).1;
    } else {
      assert (events + [e])[1..] == events[1..] + [e];
      var (s1, first) := Step(x, s, events[0]);
      RunSnoc(x, s1, events[1..], e);
      var (t, traffic) := Run(x, s1, events[1..]);
      Associate(first, traffic, Step(x, t, e).1);
    }
  }

  lemma OverSnoc(x: Setup, now: nat, events: seq<Event>, e: Event)
    ensures Over(x, now, events + [e]) <==> Over(x, now, events) || Ends(x, now, events, e)
  {
    hide Ends;
    var all, n := events + [e], |events|;
    assert all[..n] == events && all[n] == e;
    assert forall i :: 0 <= i < n ==> all[..i] == events[..i] && all[i] == events[i];
    if i :| 0 <= i < n && Ends(x, now, events[..i], events[i]) {
      assert Ends(x, now, all[..i], all[i]);
    }
    if i :| 0 <= i < |all| && Ends(x, now, all[..i], all[i]) {
      assert i < n ==> Ends(x, now, events[..i], events[i]);
    }
  }

  /** The state of a run, in terms of its history. */
  ghost predicate Explained(x: Setup, now: nat, events: seq<Event>, s: State) {
    && (s.ended <==> Over(x, now, events))
    && (!s.ended ==> s.client == ClaimedBy(x, events) && s.lastActivity == LastUse(x, now, events))
  }

  lemma TurnExplained(x: Setup, now: nat, events: seq<Event>, s: State, e: Event)
    requires Explained(x, now, events, s) && !s.ended
    ensures var (t, more) := Step(x, s, e);
            && (t.ended <==> Ends(x, now, events, e))
            && (!t.ended ==> t.client == ClaimedBy(x, events + [e]) && t.lastActivity == LastUse(x, now, events + [e]))
            && AllMatch(more, if Uses(x, events, e) && WasSent(e) then [e] else [], t.client)
            && (s.client.Some? ==> t.client == s.client)
  {
    var all, n := events + [e], |events|;
    assert all[..n] == events && all[n] == e;
    if e.FromRemote? {
      Encodable(e.origin, e.payload);
    }
    hide DecodeUdpPacket, EncodeUdpPacket, Canonical;
  }

  /** A reply can be encoded exactly if some packet decodes to it. */
  lemma Encodable(origin: TargetAddr, payload: seq<byte>)
    ensures EncodeUdpPacket(origin, payload).Ok? <==> exists packet :: DecodeUdpPacket(packet) == Ok((origin, payload))
    ensures EncodeUdpPacket(origin, payload).Ok? ==>
              DecodeUdpPacket(EncodeUdpPacket(origin, payload).value) == Ok((origin, payload))
  {
    hide EncodeUdpPacket, DecodeUdpPacket;
    if EncodeUdpPacket(origin, payload).Ok? {
      UdpPacketDecodes(origin, payload);
    }
    if packet :| DecodeUdpPacket(packet) == Ok((origin, payload)) {
      UdpPacketReencodes(packet);
    }
  }

  lemma MatchMore(ts: seq<Traffic>, events: seq<Event>, c: Option<SocketAddr>,
                  more: seq<Traffic>, later: seq<Event>, c': Option<SocketAddr>)
    requires AllMatch(ts, events, c) && AllMatch(more, later, c') && (c.Some? ==> c' == c)
    ensures AllMatch(ts + more, events + later, c')
  {
    hide Matches;
  }

  /**
   The whole association by its history alone: it is over exactly once the control connection closes,
   a receive or a send fails, or nothing has been sent on for the idle timeout; and what went out is,
   in order and one for one, what the packets sent on before that call for, all with the claiming
   client: the client's packets decoded, and for the remote side's packets ones that decode to them.
   */
  lemma {:induction false} HistoryExplainsRun(x: Setup, now: nat, events: seq<Event>)
    ensures var (s, traffic) := Run(x, Begin(now), events);
            Explained(x, now, events, s) && AllMatch(traffic, Carried(x, now, events), s.client)
    decreases |events|
  {
    hide Step, Ends, Uses, Matches;
    if events == [] {
    } else {
      var n := |events| - 1;
      var before, e := events[..n], events[n];
      assert events == before + [e];
      HistoryExplainsRun(x, now, before);
      RunSnoc(x, Begin(now), before, e);
      OverSnoc(x, now, before, e);
      var (s, traffic) := Run(x, Begin(now), before);
      var (t, more) := Step(x, s, e);
      if s.ended {
        EndedTurn(x, s, e);
        MatchMore(traffic, Carried(x, now, before), s.client, [], [], s.client);
      } else {
        TurnExplained(x, now, before, s, e);
        MatchMore(traffic, Carried(x, now, before), s.client, more, if Uses(x, before, e) && WasSent(e) then [e] else [], t.client);
      }
    }
  }

  lemma EndedTurn(x: Setup, s: State, e: Event)
    requires s.ended
    ensures Step(x, s, e) == (s, [])
  {}

  // The loop

  function Begin(now: nat): State {
    State(None, now, false)
  }

  /**
   The loop of one association, over anything it may wake up for. The address it ends up with is
   that of the first valid packet from where the client is expected; all its traffic is with that
   address; it has forwarded every well-formed packet of that client, decoded and in order, and sent
   back, in order, a packet for each that came from the remote side, which decodes to it.
   */
  method Serve(x: Setup, now: nat, events: seq<Event>) returns (client: Option<SocketAddr>, traffic: seq<Traffic>)
    ensures client == FirstClaim(x, Begin(now), events)
    ensures client.None? ==> traffic == []
    ensures client.Some? ==>
              && Expected(x.peer, x.requestedPort, client.value)
              && (forall i :: 0 <= i < |traffic| ==> Concerns(traffic[i], client.value))
              && ForwardedOnly(traffic) == Requests(x, Begin(now), events, client.value)
    ensures AllMatch(traffic, Carried(x, now, events), client)
    ensures traffic == Run(x, Begin(now), events).1
  {
    client, traffic := None, [];
    var lastActivity, ended, i := now, false, 0;
    assert traffic + Run(x, Begin(now), events).1 == Run(x, Begin(now), events).1;
    while i < |events| && !ended
      invariant 0 <= i <= |events|
      invariant Onward(x, now, events, i, State(client, lastActivity, ended), traffic)
    {
      TurnOnward(x, now, events, i, State(client, lastActivity, ended), traffic);
      hide Run, Onward;
      match events[i] {
        case ControlByte =>
        case ControlClosed =>
          ended := true;
        case ReceiveFailed =>
          ended := true;
        case Tick(at) =>
          ended := at >= lastActivity + IDLE_TIMEOUT;
        case FromRemote(origin, payload, sent, at) =>
          if client.Some? {
            var packet := EncodeUdpPacket(origin, payload);
            if packet.Ok? {
              if sent {
                traffic := traffic + [Replied(client.value, packet.value)];
                lastActivity := at;
              } else {
                ended := true;
              }
            }
          }
        case FromClient(source, data, sent, at) =>
          if ClientAllowed(x.peer, x.requestedPort, client, source) {
            var decoded := DecodeUdpPacket(data);
            if decoded.Ok? {
              client := Some(source);
              if sent {
                traffic := traffic + [Forwarded(source, decoded.value.0, decoded.value.1)];
                lastActivity := at;
              } else {
                ended := true;
              }
            }
          }
      }
      i := i + 1;
    }
    LoopEnds(x, now, events, i, State(client, lastActivity, ended), traffic);
    HistoryExplainsRun(x, now, events);
    AssociationIsSafe(x, Begin(now), events);
    if client.Some? {
      NothingLost(x, Begin(now), events, client.value);
    }
  }

  /** After `i` turns, in state `s`: what is still to come completes the run. */
  ghost predicate Onward(x: Setup, now: nat, events: seq<Event>, i: nat, s: State, traffic: seq<Traffic>) {
    && i <= |events|
    && Run(x, Begin(now), events) == (Run(x, s, events[i..]).0, traffic + Run(x, s, events[i..]).1)
  }

  lemma TurnOnward(x: Setup, now: nat, events: seq<Event>, i: nat, s: State, traffic: seq<Traffic>)
    requires i < |events| && Onward(x, now, events, i, s, traffic)
    ensures var (next, more) := Step(x, s, events[i]);
            Onward(x, now, events, i + 1, next, traffic + more) && (more == [] ==> Onward(x, now, events, i + 1, next, traffic))
  {
    var (next, more) := Step(x, s, events[i]);
    assert events[i..][1..] == events[i + 1..];
    hide Step;
    assert traffic + (more + Run(x, next, events[i + 1..]).1) == traffic + more + Run(x, next, events[i + 1..]).1;
    assert more == [] ==> traffic + more == traffic;
  }

  lemma LoopEnds(x: Setup, now: nat, events: seq<Event>, i: nat, s: State, traffic: seq<Traffic>)
    requires Onward(x, now, events, i, s, traffic) && (i == |events| || s.ended)
    ensures Run(x, Begin(now), events) == (s, traffic)
  {
    if s.ended {
      EndedIsSilent(x, s, events[i..]);
    }
    assert traffic + [] == traffic;
  }
}
