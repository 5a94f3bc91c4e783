/** The UDP path as a whole: the sender's queue against the receiver's assembler. */
module TuicEndToEnd {
  import opened Bytes
  import opened TuicCodec
  import opened TuicAssembler
  import opened TuicUdpSend
  import opened Transport

  /** A packet as an application hands it over. */
  predicate Whole(p: Packet) {
    p.fragTotal == 1 && p.fragId == 0 && p.target.Some?
  }

  /** The packets that can be cut to fit; the others are dropped by the sender. */
  function Deliverable(ps: seq<Packet>, limit: nat): (r: seq<Packet>) {
    if ps == [] then []
    else if FragmentPacket(ps[0], limit).Ok? then [ps[0]] + Deliverable(ps[1..], limit)
    else Deliverable(ps[1..], limit)
  }

  function Delivered(outcomes: seq<Outcome>): (r: seq<Packet>) {
    if outcomes == [] then []
    else
      match outcomes[0].1
      case Ok(Some(p)) => [p] + Delivered(outcomes[1..])
      case _ => Delivered(outcomes[1..])
  }

  /** The datagrams arrive in order, each parsed and pushed at some time, without long pauses. */
  ghost predicate Arrive(events: seq<Event>, datagrams: seq<seq<byte>>) {
    && |events| == |datagrams| && Brisk(events)
    && (forall i :: 0 <= i < |events| ==> events[i].PushEvent? && ParsePacket(datagrams[i]) == Ok(events[i].packet))
  }

  lemma {:induction false} RunAppend(m: Groups, a: seq<Event>, b: seq<Event>)
    ensures Run(m, a + b) == Run(m, a) + Run(Final(m, a), b)
    decreases |a|
  {
    hide Pushed, Evicted;
    if a == [] {
      assert a + b == b;
    } else {
      assert (a + b)[1..] == a[1..] + b;
      match a[0] {
        case PushEvent(p, now) => RunAppend(Pushed(m, p, now).0, a[1..], b);
        case EvictEvent(now, timeout) => RunAppend(Evicted(m, now, timeout), a[1..], b);
      }
    }
  }

  lemma {:induction false} DeliveredAppend(a: seq<Outcome>, b: seq<Outcome>)
    ensures Delivered(a + b) == Delivered(a) + Delivered(b)
  {
    if a == [] {
      assert a + b == b;
    } else {
      assert (a + b)[1..] == a[1..] + b;
      DeliveredAppend(a[1..], b);
    }
  }

  lemma {:induction false} DeliveredOnce(n: nat, k: Key, p: Packet)
    ensures Delivered(DeliveredAfter(n, k, p)) == [p]
  {
    if n == 0 {
      assert DeliveredAfter(0, k, p) == [(k, Ok(Some(p)))];
      assert DeliveredAfter(0, k, p)[1..] == [];
    } else {
      DeliveredStep(n - 1, k, p);
      assert DeliveredAfter(n, k, p)[1..] == DeliveredAfter(n - 1, k, p);
      DeliveredOnce(n - 1, k, p);
    }
  }

  function UpTo(n: nat): (r: seq<byte>)
    requires n <= 0x100
    ensures |r| == n
  {
    seq(n, i requires 0 <= i < n => i)
  }

  lemma {:induction false} IdSetSnoc(ids: seq<byte>, id: byte)
    ensures IdSet(ids + [id]) == IdSet(ids) + {id}
  {
    if ids == [] {
      assert ids + [id] == [id] && [id][1..] == [];
    } else {
      assert (ids + [id])[1..] == ids[1..] + [id];
      IdSetSnoc(ids[1..], id);
    }
  }

  lemma {:induction false} UpToIsAll(n: nat)
    requires n <= 0x100
    ensures IdSet(UpTo(n)) == Ids(n)
  {
    if n > 0 {
      UpToIsAll(n - 1);
      assert UpTo(n) == UpTo(n - 1) + [n - 1];
      IdSetSnoc(UpTo(n - 1), n - 1);
    }
  }

  lemma InOrderCompletes(n: nat)
    requires 0 < n <= 255
    ensures LastCompletes(UpTo(n), n)
  {
    UpToIsAll(n);
    UpToIsAll(n - 1);
    assert UpTo(n)[..n - 1] == UpTo(n - 1);
    assert n - 1 in Ids(n) && n - 1 !in Ids(n - 1);
  }

  /** The pieces of one packet, arriving in order at an empty assembler, bring the packet out and leave it empty. */
  lemma OnePacket(p: Packet, limit: nat, events: seq<Event>)
    requires Whole(p) && FragmentPacket(p, limit).Ok?
    requires Arrive(events, Wires(FragmentPacket(p, limit).value))
    ensures Delivered(Run(map[], events)) == [p] && Final(map[], events) == map[]
  {
    FragmentsFitAndRebuild(p, limit);
    hide EncodePacket, FragmentPacket, ParsePacket, Run, Final;
    var fs := FragmentPacket(p, limit).value;
    InOrderCompletes(|fs|);
    WireCarries(p, limit, events, UpTo(|fs|));
    AllArrive(p, fs, events, UpTo(|fs|));
    DeliveredOnce(|fs| - 1, KeyOf(p), p);
  }

  lemma ArriveSplit(events: seq<Event>, a: seq<seq<byte>>, b: seq<seq<byte>>)
    requires Arrive(events, a + b)
    ensures |events| == |a| + |b| && Arrive(events[..|a|], a) && Arrive(events[|a|..], b)
  {
    hide ParsePacket;
    forall i | 0 <= i < |b| ensures events[|a|..][i].PushEvent? && ParsePacket(b[i]) == Ok(events[|a|..][i].packet) {
      assert (a + b)[i + |a|] == b[i];
    }
    forall i | 0 <= i < |a| ensures events[..|a|][i].PushEvent? && ParsePacket(a[i]) == Ok(events[..|a|][i].packet) {
      assert (a + b)[i] == a[i];
    }
  }

  /** A run that leaves the assembler empty does not affect what a later run delivers. */
  lemma DeliveredInTurn(a: seq<Event>, b: seq<Event>)
    requires Final(map[], a) == map[]
    ensures Delivered(Run(map[], a + b)) == Delivered(Run(map[], a)) + Delivered(Run(map[], b))
  {
    hide Run, Delivered;
    RunAppend(map[], a, b);
    DeliveredAppend(Run(map[], a), Run(map[], b));
  }

  lemma DeliveredInHalves(events: seq<Event>, n: nat)
    requires n <= |events| && Final(map[], events[..n]) == map[]
    ensures Delivered(Run(map[], events)) == Delivered(Run(map[], events[..n])) + Delivered(Run(map[], events[n..]))
  {
    hide Run, Delivered, Final;
    assert events == events[..n] + events[n..];
    DeliveredInTurn(events[..n], events[n..]);
  }

  predicate AllWhole(ps: seq<Packet>) {
    forall i :: 0 <= i < |ps| ==> Whole(ps[i])
  }

  /** The datagrams of queued packets. */
  function Sent(ps: seq<Packet>, limit: nat): (r: seq<seq<byte>>) {
    AllDatagrams(PacketWrites(ps), limit)
  }

  lemma FirstSent(ps: seq<Packet>, limit: nat)
    requires ps != []
    ensures Sent(ps, limit) == Datagrams(PacketWrite(ps[0]), limit) + Sent(ps[1..], limit)
  {
    hide Datagrams;
    assert PacketWrites(ps)[1..] == PacketWrites(ps[1..]);
    FirstWrite(PacketWrites(ps), limit);
  }

  /**
   Whatever whole packets are queued, if the datagrams they stand for arrive in order, the receiver
   gets exactly the packets that fit once cut, unchanged and in the order they were queued.
   */
  lemma {:induction false} PacketsArrive(ps: seq<Packet>, limit: nat, events: seq<Event>)
    requires AllWhole(ps) && Arrive(events, Sent(ps, limit))
    ensures Delivered(Run(map[], events)) == Deliverable(ps, limit)
    decreases |ps|
  {
    if ps == [] {
      NothingArrives(events);
    } else {
      assert Whole(ps[0]) && AllWhole(ps[1..]);
      FirstSent(ps, limit);
      DeliverableFirst(ps, limit);
      hide Run, Arrive, Delivered, Final, Sent, Datagrams, Deliverable, AllWhole, Whole;
      var mine := Datagrams(PacketWrite(ps[0]), limit);
      ArriveSplit(events, mine, Sent(ps[1..], limit));
      PacketsArrive(ps[1..], limit, events[|mine|..]);
      FirstArrives(ps[0], limit, events[..|mine|]);
      DeliveredInHalves(events, |mine|);
    }
  }

  lemma DeliverableFirst(ps: seq<Packet>, limit: nat)
    requires ps != []
    ensures Deliverable(ps, limit) == Deliverable([ps[0]], limit) + Deliverable(ps[1..], limit)
  {
    hide FragmentPacket;
    assert [ps[0]][1..] == [];
  }

  lemma FirstArrives(p: Packet, limit: nat, events: seq<Event>)
    requires Whole(p) && Arrive(events, Datagrams(PacketWrite(p), limit))
    ensures Delivered(Run(map[], events)) == Deliverable([p], limit) && Final(map[], events) == map[]
  {
    hide EncodePacket, FragmentPacket, ParsePacket;
    assert [p][1..] == [];
    if FragmentPacket(p, limit).Ok? {
      OnePacket(p, limit, events);
    } else {
      assert events == [];
    }
  }

  lemma NothingArrives(events: seq<Event>)
    requires Arrive(events, [])
    ensures Delivered(Run(map[], events)) == []
  {
    assert events == [];
  }

  // The whole path

  /** The pushes of received datagrams, the i-th at `clock(i)`; what does not parse is ignored. */
  function Pushes(datagrams: seq<seq<byte>>, clock: nat -> nat): (r: seq<Event>) {
    if datagrams == [] then []
    else
      var n := |datagrams| - 1;
      match ParsePacket(datagrams[n])
      case Ok(p) => Pushes(datagrams[..n], clock) + [PushEvent(p, clock(n))]
      case Err => Pushes(datagrams[..n], clock)
  }

  lemma PushLast(events: seq<Event>, p: Packet, now: nat)
    ensures Final(map[], events + [PushEvent(p, now)]) == Pushed(Final(map[], events), p, now).0
    ensures Delivered(Run(map[], events + [PushEvent(p, now)])) ==
            Delivered(Run(map[], events)) +
            match Pushed(Final(map[], events), p, now).1 { case Ok(Some(whole)) => [whole] case _ => [] }
  {
    var m, last := Final(map[], events), [PushEvent(p, now)];
    assert last[1..] == [];
    FirstPush(m, last);
    RunAppend(map[], events, last);
    FinalAppend(map[], events, last);
    hide Pushed;
    var r := Pushed(m, p, now).1;
    assert Run(m, last) == [(KeyOf(p), r)];
    assert [(KeyOf(p), r)][1..] == [];
    DeliveredAppend(Run(map[], events), Run(m, last));
  }

  lemma {:induction false} FinalAppend(m: Groups, a: seq<Event>, b: seq<Event>)
    ensures Final(m, a + b) == Final(Final(m, a), b)
    decreases |a|
  {
    hide Pushed, Evicted;
    if a == [] {
      assert a + b == b;
    } else {
      assert (a + b)[1..] == a[1..] + b;
      match a[0] {
        case PushEvent(p, now) => FinalAppend(Pushed(m, p, now).0, a[1..], b);
        case EvictEvent(now, timeout) => FinalAppend(Evicted(m, now, timeout), a[1..], b);
      }
    }
  }

  /** The receiving end: every datagram is parsed and pushed. */
  method Receive(datagrams: seq<seq<byte>>, clock: nat -> nat) returns (delivered: seq<Packet>)
    ensures delivered == Delivered(Run(map[], Pushes(datagrams, clock)))
  {
    hide ParsePacket, Pushed, Run, Delivered, Final;
    var assembler := new PacketAssembler();
    delivered := [];
    NothingPushed();
    var i := 0;
    while i < |datagrams|
      invariant 0 <= i <= |datagrams|
      invariant assembler.fragments == Final(map[], Pushes(datagrams[..i], clock))
      invariant delivered == Delivered(Run(map[], Pushes(datagrams[..i], clock)))
    {
      assert datagrams[..i + 1][..i] == datagrams[..i] && datagrams[..i + 1][i] == datagrams[i];
      var parsed := ParsePacket(datagrams[i]);
      if parsed.Ok? {
        PushLast(Pushes(datagrams[..i], clock), parsed.value, clock(i));
        var pushed := assembler.Push(parsed.value, clock(i));
        if pushed.Ok? && pushed.value.Some? {
          delivered := delivered + [pushed.value.value];
        }
      }
      i := i + 1;
    }
    assert datagrams[..i] == datagrams;
  }

  lemma NothingPushed()
    ensures Final(map[], []) == map[] && Delivered(Run(map[], [])) == []
  {}

  lemma ArriveSnoc(events: seq<Event>, datagrams: seq<seq<byte>>, datagram: seq<byte>, p: Packet, now: nat)
    requires Arrive(events, datagrams) && ParsePacket(datagram) == Ok(p)
    requires events != [] ==> Elapsed(now, events[|events| - 1].now) < FRAGMENT_IDLE_TIMEOUT
    ensures Arrive(events + [PushEvent(p, now)], datagrams + [datagram])
  {
    hide ParsePacket, Elapsed;
  }

  ghost predicate AllParse(datagrams: seq<seq<byte>>) {
    forall i :: 0 <= i < |datagrams| ==> ParsePacket(datagrams[i]).Ok?
  }

  /** Datagrams never arrive further apart than the assembler keeps a group. */
  ghost predicate Steady(clock: nat -> nat) {
    forall i: nat :: Elapsed(clock(i + 1), clock(i)) < FRAGMENT_IDLE_TIMEOUT
  }

  /** Datagrams that all parse arrive in order. */
  lemma {:induction false} PushesArrive(datagrams: seq<seq<byte>>, clock: nat -> nat)
    requires AllParse(datagrams) && Steady(clock)
    ensures Arrive(Pushes(datagrams, clock), datagrams)
    ensures datagrams != [] ==> Pushes(datagrams, clock)[|datagrams| - 1].now == clock(|datagrams| - 1)
  {
    if datagrams != [] {
      var n := |datagrams| - 1;
      assert AllParse(datagrams[..n]);
      assert datagrams == datagrams[..n] + [datagrams[n]];
      assert n > 0 ==> Elapsed(clock(n - 1 + 1), clock(n - 1)) < FRAGMENT_IDLE_TIMEOUT;
      var p := ParsePacket(datagrams[n]).value;
      PushesArrive(datagrams[..n], clock);
      assert |Pushes(datagrams[..n], clock)| == n;
      hide ParsePacket, Arrive, Elapsed, AllParse, Steady;
      ArriveSnoc(Pushes(datagrams[..n], clock), datagrams[..n], datagrams[n], p, clock(n));
    }
  }

  /** Whatever is sent for whole packets parses. */
  lemma {:induction false} SentParses(ps: seq<Packet>, limit: nat)
    ensures AllParse(Sent(ps, limit))
  {
    if ps != [] {
      FirstSent(ps, limit);
      SentParses(ps[1..], limit);
      PiecesParse(ps[0], limit);
      hide ParsePacket, Sent, Datagrams;
    }
  }

  lemma PiecesParse(p: Packet, limit: nat)
    ensures AllParse(Datagrams(PacketWrite(p), limit))
  {
    if FragmentPacket(p, limit).Ok? {
      FragmentsFitAndRebuild(p, limit);
      var fs := FragmentPacket(p, limit).value;
      hide FragmentPacket, ParsePacket, EncodePacket;
      forall i | 0 <= i < |fs| ensures ParsePacket(Wires(fs)[i]).Ok? {
        assert fs[i] in fs;
        PacketRoundTrip(fs[i], []);
        assert Wire(fs[i]) + [] == Wire(fs[i]);
      }
    }
  }

  /**
   The whole path: whole packets are queued and drained to a transport that takes them all, and the
   datagrams it was given are received. What comes out is what can be cut, unchanged and in order.
   */
  method Transfer(ps: seq<Packet>, limit: nat, net: Script, clock: nat -> nat) returns (drained: bool, delivered: seq<Packet>)
    requires AllWhole(ps) && Steady(clock)
    ensures drained ==> delivered == Deliverable(ps, limit)
    ensures AllCanEncode(PacketWrites(ps)) && limit >= |HEARTBEAT| && (forall n :: net(n).Accept?) ==> drained
  {
    var sender := new UdpOutbound();
    var i := 0;
    while i < |ps|
      invariant 0 <= i <= |ps|
      invariant sender.pending == PacketWrites(ps[..i]) && sender.sent == [] && fresh(sender)
    {
      sender.Enqueue(PacketWrite(ps[i]));
      i := i + 1;
    }
    assert ps[..i] == ps;
    var ok, out := sender.ProcessWrites(net, limit);
    drained := ok && sender.pending == [];
    delivered := Receive(sender.sent, clock);
    if drained {
      hide Run, Delivered, Arrive, Deliverable;
      assert out + [] == out;
      assert sender.sent == Sent(ps, limit);
      SentParses(ps, limit);
      PushesArrive(sender.sent, clock);
      PacketsArrive(ps, limit, Pushes(sender.sent, clock));
    }
  }
}
