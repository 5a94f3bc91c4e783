/** What the QUIC transport may answer: an arbitrary script indexed by the number of the call. */
module Transport {
  import opened Bytes

  /** `Accept(n)` takes at most `n` bytes of a stream write, or a whole datagram. */
  datatype Verdict = Accept(n: nat) | Full | Broken

  type Script = nat -> Verdict

  datatype DatagramResult = Sent | QueueFull | TooLong | Failed

  /** A datagram is refused as too long exactly when it exceeds the limit. */
  function DatagramSend(verdict: Verdict, limit: nat, data: seq<byte>): (r: DatagramResult) {
    if |data| > limit then TooLong
    else
      match verdict
      case Accept(_) => Sent
      case Full => QueueFull
      case Broken => Failed
  }
}

/**
 The UDP half of src/protocol/tuic/outbound.rs: packets wait in a queue, and one that
 exceeds the datagram limit is replaced, at the front, by its fragments.
 */
module TuicUdpSend {
  import opened Bytes
  import opened TuicCodec
  import opened Transport

  datatype UdpWrite = PacketWrite(packet: Packet) | HeartbeatWrite

  const HEARTBEAT: seq<byte> := [VERSION, CMD_HEARTBEAT]

  /** The datagrams one queued write stands for: the fragments of its packet, or none if the packet cannot be cut to fit. */
  function Datagrams(w: UdpWrite, limit: nat): (r: seq<seq<byte>>) {
    match w
    case HeartbeatWrite => [HEARTBEAT]
    case PacketWrite(p) =>
      match FragmentPacket(p, limit)
      case Ok(fs) => Wires(fs)
      case Err => []
  }

  function AllDatagrams(q: seq<UdpWrite>, limit: nat): (r: seq<seq<byte>>) {
    if q == [] then [] else Datagrams(q[0], limit) + AllDatagrams(q[1..], limit)
  }

  predicate Oversized(w: UdpWrite, limit: nat) {
    w.PacketWrite? && |Wire(w.packet)| > limit
  }

  function OversizedCount(q: seq<UdpWrite>, limit: nat): (n: nat) {
    if q == [] then 0 else (if Oversized(q[0], limit) then 1 else 0) + OversizedCount(q[1..], limit)
  }

  function PacketWrites(ps: seq<Packet>): (r: seq<UdpWrite>)
    ensures |r| == |ps|
  {
    seq(|ps|, i requires 0 <= i < |ps| => PacketWrite(ps[i]))
  }

  /** A write that fits is one datagram. */
  lemma FitsAlone(w: UdpWrite, limit: nat)
    requires w.PacketWrite? ==> EncodePacket(w.packet).Ok? && |EncodePacket(w.packet).value| <= limit
    ensures Datagrams(w, limit) == [if w.PacketWrite? then EncodePacket(w.packet).value else HEARTBEAT]
    ensures !Oversized(w, limit)
  {}

  lemma {:induction false} FittingQueue(ps: seq<Packet>, rest: seq<UdpWrite>, limit: nat)
    requires forall i :: 0 <= i < |ps| ==> EncodePacket(ps[i]).Ok? && |EncodePacket(ps[i]).value| <= limit
    ensures AllDatagrams(PacketWrites(ps) + rest, limit) == Wires(ps) + AllDatagrams(rest, limit)
    ensures OversizedCount(PacketWrites(ps) + rest, limit) == OversizedCount(rest, limit)
  {
    hide EncodePacket, Datagrams, Oversized;
    if ps == [] {
      assert PacketWrites(ps) + rest == rest;
    } else {
      FittingQueue(ps[1..], rest, limit);
      FitsAlone(PacketWrite(ps[0]), limit);
      assert (PacketWrites(ps) + rest)[1..] == PacketWrites(ps[1..]) + rest;
      assert Wires(ps) == [Wire(ps[0])] + Wires(ps[1..]);
    }
  }

  lemma FirstWrite(q: seq<UdpWrite>, limit: nat)
    requires q != []
    ensures AllDatagrams(q, limit) == Datagrams(q[0], limit) + AllDatagrams(q[1..], limit)
    ensures OversizedCount(q, limit) == OversizedCount(q[1..], limit) + if Oversized(q[0], limit) then 1 else 0
  {}

  /** Replacing an oversized packet by its fragments keeps the datagrams owed and removes one oversized entry. */
  lemma CutInPlace(p: Packet, rest: seq<UdpWrite>, limit: nat)
    requires FragmentPacket(p, limit).Ok?
    ensures var q := PacketWrites(FragmentPacket(p, limit).value) + rest;
            && AllDatagrams(q, limit) == Datagrams(PacketWrite(p), limit) + AllDatagrams(rest, limit)
            && OversizedCount(q, limit) == OversizedCount(rest, limit)
  {
    FragmentsFitAndRebuild(p, limit);
    var fs := FragmentPacket(p, limit).value;
    assert forall i :: 0 <= i < |fs| ==> fs[i] in fs;
    hide EncodePacket, FragmentPacket;
    FittingQueue(fs, rest, limit);
  }

  predicate CanEncode(w: UdpWrite) {
    w.PacketWrite? ==> EncodePacket(w.packet).Ok?
  }

  predicate AllCanEncode(q: seq<UdpWrite>) {
    forall i :: 0 <= i < |q| ==> CanEncode(q[i])
  }

  class UdpOutbound {
    var pending: seq<UdpWrite>
    var sent: seq<seq<byte>>
    var calls: nat

    constructor ()
      ensures pending == [] && sent == [] && calls == 0
    {
      pending, sent, calls := [], [], 0;
    }

    method Enqueue(w: UdpWrite)
      modifies this`pending
      ensures pending == old(pending) + [w]
    {
      pending := pending + [w];
    }

    method RequeueFront(fs: seq<Packet>)
      modifies this`pending
      ensures pending == PacketWrites(fs) + old(pending)
    {
      var i := |fs|;
      assert PacketWrites(fs[i..]) + pending == pending;
      while i > 0
        invariant 0 <= i <= |fs|
        invariant pending == PacketWrites(fs[i..]) + old(pending)
      {
        i := i - 1;
        pending := [PacketWrite(fs[i])] + pending;
      }
      assert fs[0..] == fs;
    }

    /** Puts the fragments of an oversized packet at the front, or drops the packet. */
    method CutToFit(packet: Packet, limit: nat)
      modifies this`pending
      ensures AllDatagrams(pending, limit) == Datagrams(PacketWrite(packet), limit) + AllDatagrams(old(pending), limit)
      ensures OversizedCount(pending, limit) == OversizedCount(old(pending), limit)
      ensures AllCanEncode(old(pending)) ==> AllCanEncode(pending)
    {
      var cut := FragmentPacket(packet, limit);
      if cut.Ok? {
        CutInPlace(packet, pending, limit);
        FragmentsFitAndRebuild(packet, limit);
        hide FragmentPacket, EncodePacket;
        assert forall i :: 0 <= i < |cut.value| ==> cut.value[i] in cut.value;
        RequeueFront(cut.value);
      }
    }

    /**
     One drain of the queue under a fixed datagram limit. It always ends; every datagram sent
     fits; what was sent, followed by what is still owed, is exactly what was owed; writes remain
     only because the transport was full; and it fails only for a packet that cannot be encoded, a
     limit too small even for a heartbeat, or a broken transport.
     */
    method ProcessWrites(net: Script, limit: nat) returns (ok: bool, ghost out: seq<seq<byte>>)
      modifies this
      ensures sent == old(sent) + out
      ensures forall i :: 0 <= i < |out| ==> |out[i]| <= limit
      ensures out <= AllDatagrams(old(pending), limit)
      ensures ok ==> out + AllDatagrams(pending, limit) == AllDatagrams(old(pending), limit)
      ensures ok && pending != [] ==> calls > 0 && net(calls - 1).Full?
      ensures !ok ==> !AllCanEncode(old(pending)) || limit < |HEARTBEAT| || (calls > 0 && net(calls - 1).Broken?)
    {
      hide EncodePacket, AllDatagrams, OversizedCount, Datagrams;
      ok, out := true, [];
      while pending != []
        invariant sent == old(sent) + out
        invariant forall i :: 0 <= i < |out| ==> |out[i]| <= limit
        invariant out + AllDatagrams(pending, limit) == AllDatagrams(old(pending), limit)
        invariant AllCanEncode(old(pending)) ==> AllCanEncode(pending)
        decreases OversizedCount(pending, limit), |pending|
      {
        FirstWrite(pending, limit);
        ghost var q := pending;
        assert AllCanEncode(q) ==> CanEncode(q[0]);
        var write := pending[0];
        var encoded := if write.PacketWrite? then EncodePacket(write.packet) else Ok(HEARTBEAT);
        pending := pending[1..];
        if encoded.Err? {
          return false, out;
        }
        var result := DatagramSend(net(calls), limit, encoded.value);
        calls := calls + 1;
        if result.TooLong? && write.PacketWrite? {
          CutToFit(write.packet, limit);
          continue;
        }
        match result {
          case Sent =>
            FitsAlone(write, limit);
            assert out + ([encoded.value] + AllDatagrams(pending, limit)) == out + [encoded.value] + AllDatagrams(pending, limit);
            sent, out := sent + [encoded.value], out + [encoded.value];
          case QueueFull =>
            pending := [write] + pending;
            assert pending == q;
            return;
          case TooLong =>
            return false, out;
          case Failed =>
            return false, out;
        }
      }
    }
  }
}

/**
 The write half of src/protocol/tuic/inbound.rs: stream data, uni-stream messages,
 datagrams and closes share one queue; a write the transport takes only in part goes
 back to the front.

 What a stream carries is a sequence of symbols: its bytes, the FIN, and the mark of a
 `Close`. `Owed` reads off a queue what each stream is still to receive, numbering the
 uni-stream messages that have no id yet the way the drain will: 3, 7, 11, ...
 */
module TuicServerSend {
  import opened Bytes
  import opened TuicCodec
  import opened Transport

  datatype QuicWrite =
    | Data(streamId: nat, data: seq<byte>, fin: bool)
    | Datagram(dgramAssoc: Option<u16>, dgram: seq<byte>)
    | UniStream(uniAssoc: Option<u16>, uniId: Option<nat>, message: seq<byte>)
    | Close(closeId: nat)

  datatype Symbol = Octet(b: byte) | Fin | Closed

  /** What reached the transport. A FIN refused on a collected stream counts as delivered, as in the source. */
  datatype WireItem = OnStream(id: nat, symbols: seq<Symbol>) | OnDatagram(payload: seq<byte>)

  const FIRST_UNI_ID: nat := 3

  function Octets(data: seq<byte>): (r: seq<Symbol>)
    ensures |r| == |data|
  {
    seq(|data|, i requires 0 <= i < |data| => Octet(data[i]))
  }

  function FinIf(fin: bool): seq<Symbol> {
    if fin then [Fin] else []
  }

  function Received(wire: seq<WireItem>, id: nat): (r: seq<Symbol>) {
    if wire == [] then []
    else if wire[0].OnStream? && wire[0].id == id then wire[0].symbols + Received(wire[1..], id)
    else Received(wire[1..], id)
  }

  function DatagramsOf(wire: seq<WireItem>): (r: seq<seq<byte>>) {
    if wire == [] then []
    else if wire[0].OnDatagram? then [wire[0].payload] + DatagramsOf(wire[1..])
    else DatagramsOf(wire[1..])
  }

  predicate Unnumbered(w: QuicWrite) {
    w.UniStream? && w.uniId.None?
  }

  /** The stream a write goes to, if its number is settled or is about to become `next`. */
  function StreamOf(w: QuicWrite, next: nat): (r: Option<nat>) {
    match w
    case Data(id, _, _) => Some(id)
    case Datagram(_, _) => None
    case UniStream(_, id, _) => if id.Some? then id else Some(next)
    case Close(id) => Some(id)
  }

  function Symbols(w: QuicWrite): (r: seq<Symbol>) {
    match w
    case Data(_, data, fin) => Octets(data) + FinIf(fin)
    case Datagram(_, _) => []
    case UniStream(_, _, message) => Octets(message) + [Fin]
    case Close(_) => [Closed]
  }

  function NextId(w: QuicWrite, next: nat): nat {
    if Unnumbered(w) then next + 4 else next
  }

  function Owed(q: seq<QuicWrite>, next: nat, id: nat): (r: seq<Symbol>) {
    if q == [] then []
    else if StreamOf(q[0], next) == Some(id) then Symbols(q[0]) + Owed(q[1..], NextId(q[0], next), id)
    else Owed(q[1..], NextId(q[0], next), id)
  }

  function NextAfter(q: seq<QuicWrite>, next: nat): (r: nat) {
    if q == [] then next else NextAfter(q[1..], NextId(q[0], next))
  }

  /** The datagrams one queued write stands for under a limit. */
  function Pieces(w: QuicWrite, limit: nat): (r: seq<seq<byte>>)
    requires w.Datagram?
  {
    if |w.dgram| <= limit then [w.dgram]
    else
      match ParsePacket(w.dgram)
      case Err => []
      case Ok(p) =>
        match FragmentPacket(p, limit)
        case Err => []
        case Ok(fs) => Wires(fs)
  }

  function AllPieces(q: seq<QuicWrite>, limit: nat): (r: seq<seq<byte>>) {
    if q == [] then []
    else if q[0].Datagram? then Pieces(q[0], limit) + AllPieces(q[1..], limit)
    else AllPieces(q[1..], limit)
  }

  function OversizedCount(q: seq<QuicWrite>, limit: nat): (n: nat) {
    if q == [] then 0
    else (if q[0].Datagram? && |q[0].dgram| > limit then 1 else 0) + OversizedCount(q[1..], limit)
  }

  // Appending

  lemma {:induction false} OwedAppend(a: seq<QuicWrite>, b: seq<QuicWrite>, next: nat, id: nat)
    ensures Owed(a + b, next, id) == Owed(a, next, id) + Owed(b, NextAfter(a, next), id)
    ensures NextAfter(a + b, next) == NextAfter(b, NextAfter(a, next))
    decreases |a|
  {
    if a == [] {
      assert a + b == b;
    } else {
      assert (a + b)[1..] == a[1..] + b;
      OwedAppend(a[1..], b, NextId(a[0], next), id);
    }
  }

  lemma {:induction false} WireAppend(a: seq<WireItem>, b: seq<WireItem>, id: nat)
    ensures Received(a + b, id) == Received(a, id) + Received(b, id)
    ensures DatagramsOf(a + b) == DatagramsOf(a) + DatagramsOf(b)
    decreases |a|
  {
    if a == [] {
      assert a + b == b;
    } else {
      assert (a + b)[1..] == a[1..] + b;
      WireAppend(a[1..], b, id);
    }
  }

  lemma LogItem(wire: seq<WireItem>, item: WireItem, id: nat)
    ensures Received(wire + [item], id) ==
            if item.OnStream? && item.id == id then Received(wire, id) + item.symbols else Received(wire, id)
    ensures DatagramsOf(wire + [item]) ==
            if item.OnDatagram? then DatagramsOf(wire) + [item.payload] else DatagramsOf(wire)
  {
    WireAppend(wire, [item], id);
    assert [item][1..] == [];
  }

  // One write

  /** Delivered symbols and symbols still owed, the delivered ones first. */
  function Account(wire: seq<WireItem>, q: seq<QuicWrite>, next: nat, id: nat): (r: seq<Symbol>) {
    Received(wire, id) + Owed(q, next, id)
  }

  /** Delivering the whole of the first write keeps every stream's account. */
  lemma DeliverFirst(wire: seq<WireItem>, q: seq<QuicWrite>, next: nat, id: nat)
    requires q != [] && StreamOf(q[0], next).Some?
    ensures Account(wire + [OnStream(StreamOf(q[0], next).value, Symbols(q[0]))], q[1..], NextId(q[0], next), id)
         == Account(wire, q, next, id)
  {
    LogItem(wire, OnStream(StreamOf(q[0], next).value, Symbols(q[0])), id);
  }

  /** The unsent part of a write, with its stream number settled. */
  function Remainder(w: QuicWrite, id: nat, sent: nat): (r: QuicWrite)
    requires w.Data? || w.UniStream?
    requires sent <= |Payload(w)|
  {
    if w.Data? then Data(id, w.data[sent..], w.fin) else UniStream(w.uniAssoc, Some(id), w.message[sent..])
  }

  function Payload(w: QuicWrite): seq<byte>
    requires w.Data? || w.UniStream?
  {
    if w.Data? then w.data else w.message
  }

  lemma SymbolsSplit(w: QuicWrite, id: nat, sent: nat)
    requires w.Data? || w.UniStream?
    requires sent <= |Payload(w)|
    ensures Symbols(w) == Octets(Payload(w)[..sent]) + Symbols(Remainder(w, id, sent))
  {}

  lemma Regroup<T>(a: seq<T>, b: seq<T>, c: seq<T>, d: seq<T>)
    ensures a + ((b + c) + d) == (a + b) + (c + d)
  {}

  /** So does delivering a prefix of it and putting the rest back at the front. */
  lemma DeliverPrefix(wire: seq<WireItem>, q: seq<QuicWrite>, next: nat, target: nat, sent: nat, id: nat)
    requires q != [] && (q[0].Data? || q[0].UniStream?) && sent <= |Payload(q[0])|
    requires StreamOf(q[0], next) == Some(target)
    ensures Account(wire + [OnStream(target, Octets(Payload(q[0])[..sent]))],
                    [Remainder(q[0], target, sent)] + q[1..], NextId(q[0], next), id)
         == Account(wire, q, next, id)
  {
    var w, part := q[0], Octets(Payload(q[0])[..sent]);
    var rest := Remainder(w, target, sent);
    LogItem(wire, OnStream(target, part), id);
    assert ([rest] + q[1..])[1..] == q[1..];
    SymbolsSplit(w, target, sent);
    Regroup(Received(wire, id), part, Symbols(rest), Owed(q[1..], NextId(w, next), id));
  }

  lemma SendDatagramFirst(wire: seq<WireItem>, q: seq<QuicWrite>, next: nat, id: nat)
    requires q != [] && q[0].Datagram?
    ensures Account(wire + [OnDatagram(q[0].dgram)], q[1..], next, id) == Account(wire, q, next, id)
    ensures Account(wire, q[1..], next, id) == Account(wire, q, next, id)
  {
    LogItem(wire, OnDatagram(q[0].dgram), id);
  }

  function DatagramWrites(assoc: Option<u16>, fs: seq<Packet>): (r: seq<QuicWrite>)
    ensures |r| == |fs|
  {
    seq(|fs|, i requires 0 <= i < |fs| => Datagram(assoc, Wire(fs[i])))
  }

  lemma FirstDatagram(q: seq<QuicWrite>, limit: nat)
    requires q != [] && q[0].Datagram?
    ensures AllPieces(q, limit) == Pieces(q[0], limit) + AllPieces(q[1..], limit)
    ensures |q[0].dgram| <= limit ==> Pieces(q[0], limit) == [q[0].dgram]
    ensures OversizedCount(q, limit) == OversizedCount(q[1..], limit) + if |q[0].dgram| > limit then 1 else 0
  {}

  lemma {:induction false} FittingDatagrams(assoc: Option<u16>, fs: seq<Packet>, rest: seq<QuicWrite>, limit: nat)
    requires forall i :: 0 <= i < |fs| ==> |Wire(fs[i])| <= limit
    ensures AllPieces(DatagramWrites(assoc, fs) + rest, limit) == Wires(fs) + AllPieces(rest, limit)
    ensures OversizedCount(DatagramWrites(assoc, fs) + rest, limit) == OversizedCount(rest, limit)
  {
    hide EncodePacket, Pieces, AllPieces, OversizedCount;
    if fs == [] {
      assert DatagramWrites(assoc, fs) + rest == rest;
    } else {
      FittingDatagrams(assoc, fs[1..], rest, limit);
      FirstDatagram(DatagramWrites(assoc, fs) + rest, limit);
      assert (DatagramWrites(assoc, fs) + rest)[1..] == DatagramWrites(assoc, fs[1..]) + rest;
      assert Wires(fs) == [Wire(fs[0])] + Wires(fs[1..]);
    }
  }

  lemma {:induction false} DatagramsOweNothing(assoc: Option<u16>, fs: seq<Packet>, rest: seq<QuicWrite>, next: nat, id: nat)
    ensures Owed(DatagramWrites(assoc, fs) + rest, next, id) == Owed(rest, next, id)
    ensures NextAfter(DatagramWrites(assoc, fs) + rest, next) == NextAfter(rest, next)
  {
    hide EncodePacket;
    if fs == [] {
      assert DatagramWrites(assoc, fs) + rest == rest;
    } else {
      DatagramsOweNothing(assoc, fs[1..], rest, next, id);
      assert (DatagramWrites(assoc, fs) + rest)[1..] == DatagramWrites(assoc, fs[1..]) + rest;
    }
  }

  /** Cutting an oversized datagram in place owes the same datagrams. */
  lemma CutInPlace(w: QuicWrite, p: Packet, rest: seq<QuicWrite>, limit: nat)
    requires w.Datagram? && |w.dgram| > limit && ParsePacket(w.dgram) == Ok(p) && FragmentPacket(p, limit).Ok?
    ensures var q := DatagramWrites(w.dgramAssoc, FragmentPacket(p, limit).value) + rest;
            && AllPieces(q, limit) == Pieces(w, limit) + AllPieces(rest, limit)
            && OversizedCount(q, limit) == OversizedCount(rest, limit)
  {
    FragmentsFitAndRebuild(p, limit);
    var fs := FragmentPacket(p, limit).value;
    forall i | 0 <= i < |fs| ensures |Wire(fs[i])| <= limit {
      assert fs[i] in fs;
    }
    FittingDatagrams(w.dgramAssoc, fs, rest, limit);
  }

  // The queue

  datatype Flow = Continue | Stop | Fail

  /** How a stream write fares: a FIN alone that finds no room belongs to a stream already collected. */
  function StreamFlow(verdict: Verdict, w: QuicWrite): Flow
    requires w.Data? || w.UniStream?
  {
    match verdict
    case Accept(n) => if n >= |Payload(w)| then Continue else Stop
    case Full => if w.Data? && w.fin && w.data == [] then Continue else Stop
    case Broken => Fail
  }

  /** The transport took nothing, though more than a FIN was offered, or left a part of a stream write at the front. */
  predicate Stalled(verdict: Verdict, front: QuicWrite) {
    || (verdict.Full? && !(front.Data? && front.fin && front.data == []))
    || (verdict.Accept? && (front.Data? || front.UniStream?) && Payload(front) != [])
  }

  function DatagramFlow(result: DatagramResult): Flow {
    match result
    case Sent => Continue
    case TooLong => Continue
    case QueueFull => Stop
    case Failed => Fail
  }

  /** A write whose number is settled without anything being sent owes what it owed. */
  lemma Requeue(q: seq<QuicWrite>, next: nat, target: nat, id: nat)
    requires q != [] && (q[0].Data? || q[0].UniStream?) && StreamOf(q[0], next) == Some(target)
    ensures Owed([Remainder(q[0], target, 0)] + q[1..], NextId(q[0], next), id) == Owed(q, next, id)
    ensures NextAfter([Remainder(q[0], target, 0)] + q[1..], NextId(q[0], next)) == NextAfter(q, next)
  {
    assert ([Remainder(q[0], target, 0)] + q[1..])[1..] == q[1..];
    assert Payload(q[0])[0..] == Payload(q[0]);
  }

  lemma EnqueueKeepsAccount(wire: seq<WireItem>, q: seq<QuicWrite>, next: nat, history: seq<QuicWrite>, w: QuicWrite, id: nat)
    requires NextAfter(q, next) == NextAfter(history, FIRST_UNI_ID)
    requires Account(wire, q, next, id) == Owed(history, FIRST_UNI_ID, id)
    ensures Account(wire, q + [w], next, id) == Owed(history + [w], FIRST_UNI_ID, id)
    ensures NextAfter(q + [w], next) == NextAfter(history + [w], FIRST_UNI_ID)
  {
    hide Owed, NextAfter, Received;
    var last := Owed([w], NextAfter(q, next), id);
    OwedAppend(q, [w], next, id);
    OwedAppend(history, [w], FIRST_UNI_ID, id);
    assert Received(wire, id) + (Owed(q, next, id) + last) == Account(wire, q, next, id) + last;
  }

  /** The accounts of all streams, and the number the next message would get. */
  ghost predicate SameAccounts(wire: seq<WireItem>, q: seq<QuicWrite>, next: nat,
                               wire': seq<WireItem>, q': seq<QuicWrite>, next': nat) {
    && NextAfter(q', next') == NextAfter(q, next)
    && forall id :: Account(wire', q', next', id) == Account(wire, q, next, id)
  }

  predicate ToStream(q: seq<QuicWrite>, next: nat, target: nat) {
    q != [] && (q[0].Data? || q[0].UniStream?) && StreamOf(q[0], next) == Some(target)
  }

  lemma WholeDelivered(wire: seq<WireItem>, q: seq<QuicWrite>, next: nat, target: nat)
    requires ToStream(q, next, target)
    ensures var item := OnStream(target, Octets(Payload(q[0])) + FinIf(q[0].UniStream? || q[0].fin));
            && SameAccounts(wire, q, next, wire + [item], q[1..], NextId(q[0], next))
            && DatagramsOf(wire + [item]) == DatagramsOf(wire)
  {
    var item := OnStream(target, Symbols(q[0]));
    forall id ensures Account(wire + [item], q[1..], NextId(q[0], next), id) == Account(wire, q, next, id) {
      DeliverFirst(wire, q, next, id);
    }
    LogItem(wire, item, 0);
  }

  lemma PrefixDelivered(wire: seq<WireItem>, q: seq<QuicWrite>, next: nat, target: nat, sent: nat)
    requires ToStream(q, next, target) && sent <= |Payload(q[0])|
    ensures var item := OnStream(target, Octets(Payload(q[0])[..sent]));
            && SameAccounts(wire, q, next, wire + [item], [Remainder(q[0], target, sent)] + q[1..], NextId(q[0], next))
            && DatagramsOf(wire + [item]) == DatagramsOf(wire)
  {
    var item, rest := OnStream(target, Octets(Payload(q[0])[..sent])), Remainder(q[0], target, sent);
    forall id ensures Account(wire + [item], [rest] + q[1..], NextId(q[0], next), id) == Account(wire, q, next, id) {
      DeliverPrefix(wire, q, next, target, sent, id);
    }
    LogItem(wire, item, 0);
    assert ([rest] + q[1..])[1..] == q[1..];
  }

  lemma NothingDelivered(wire: seq<WireItem>, q: seq<QuicWrite>, next: nat, target: nat)
    requires ToStream(q, next, target)
    ensures SameAccounts(wire, q, next, wire, [Remainder(q[0], target, 0)] + q[1..], NextId(q[0], next))
  {
    forall id ensures Owed([Remainder(q[0], target, 0)] + q[1..], NextId(q[0], next), id) == Owed(q, next, id) {
      Requeue(q, next, target, id);
    }
    Requeue(q, next, target, 0);
  }

  class WriteQueue {
    var pending: seq<QuicWrite>
    var nextUniId: nat
    var wire: seq<WireItem>
    var calls: nat
    /** Every write ever enqueued. */
    ghost var history: seq<QuicWrite>

    /**
     Every stream has received, or is still owed, in order, exactly what was enqueued for it,
     where the uni-stream messages of the history are numbered 3, 7, 11, ... as they come.
     */
    ghost predicate Valid()
      reads this`pending, this`nextUniId, this`wire, this`history
    {
      && NextAfter(pending, nextUniId) == NextAfter(history, FIRST_UNI_ID)
      && (forall id :: Account(wire, pending, nextUniId, id) == Owed(history, FIRST_UNI_ID, id))
    }

    constructor ()
      ensures Valid() && history == [] && pending == [] && wire == [] && nextUniId == FIRST_UNI_ID
    {
      pending, nextUniId, wire, calls, history := [], FIRST_UNI_ID, [], 0, [];
    }

    /** Tasks hand over uni-stream messages unnumbered. */
    method Enqueue(w: QuicWrite)
      requires Valid() && (w.UniStream? ==> Unnumbered(w))
      modifies this`pending, this`history
      ensures Valid() && history == old(history) + [w] && pending == old(pending) + [w]
    {
      forall id ensures Account(wire, pending + [w], nextUniId, id) == Owed(history + [w], FIRST_UNI_ID, id) {
        EnqueueKeepsAccount(wire, pending, nextUniId, history, w, id);
      }
      EnqueueKeepsAccount(wire, pending, nextUniId, history, w, 0);
      pending, history := pending + [w], history + [w];
    }

    /** Sends the first write, which goes to a stream; what is left of it returns to the front. */
    method StreamStep(net: Script) returns (flow: Flow)
      requires Valid() && pending != [] && (pending[0].Data? || pending[0].UniStream?)
      modifies this`pending, this`nextUniId, this`wire, this`calls
      ensures flow != Fail ==> Valid()
      ensures DatagramsOf(wire) == DatagramsOf(old(wire))
      ensures calls == old(calls) + 1 && flow == StreamFlow(net(old(calls)), old(pending)[0])
      ensures flow == Continue ==> pending == old(pending)[1..]
      ensures flow == Stop ==> pending != [] && !pending[0].Datagram? && pending[1..] == old(pending)[1..]
      ensures flow == Stop ==> Stalled(net(old(calls)), pending[0])
    {
      hide Received, DatagramsOf, Octets, Owed, NextAfter, Account;
      var write, target := pending[0], StreamOf(pending[0], nextUniId).value;
      var data := Payload(write);
      var fin := write.UniStream? || write.fin;
      ghost var q, next := pending, nextUniId;
      pending := pending[1..];
      if Unnumbered(write) {
        nextUniId := nextUniId + 4;
      }
      calls := calls + 1;
      match net(calls - 1) {
        case Accept(n) =>
          var sent := if n < |data| then n else |data|;
          if sent == |data| {
            WholeDelivered(wire, q, next, target);
            wire := wire + [OnStream(target, Octets(data) + FinIf(fin))];
            return Continue;
          }
          PrefixDelivered(wire, q, next, target, sent);
          wire := wire + [OnStream(target, Octets(data[..sent]))];
          pending := [Remainder(write, target, sent)] + pending;
          return Stop;
        case Full =>
          if write.Data? && fin && data == [] {
            // The stream was already collected: the FIN counts as delivered.
            WholeDelivered(wire, q, next, target);
            wire := wire + [OnStream(target, Octets(data) + FinIf(fin))];
            return Continue;
          }
          NothingDelivered(wire, q, next, target);
          pending := [Remainder(write, target, 0)] + pending;
          return Stop;
        case Broken =>
          return Fail;
      }
    }

    method RequeueFront(assoc: Option<u16>, fs: seq<Packet>)
      requires forall f :: f in fs ==> EncodePacket(f).Ok?
      modifies this`pending
      ensures pending == DatagramWrites(assoc, fs) + old(pending)
    {
      hide EncodePacket;
      var i := |fs|;
      assert DatagramWrites(assoc, fs[i..]) + pending == pending;
      while i > 0
        invariant 0 <= i <= |fs|
        invariant pending == DatagramWrites(assoc, fs[i..]) + old(pending)
      {
        i := i - 1;
        assert fs[i] in fs;
        pending := [Datagram(assoc, EncodePacket(fs[i]).value)] + pending;
      }
      assert fs[0..] == fs;
    }

    /** Replaces the first write, an oversized datagram, by its fragments, or drops it if it cannot be cut. */
    method CutFirst(limit: nat)
      requires Valid() && pending != [] && pending[0].Datagram? && |pending[0].dgram| > limit
      modifies this`pending
      ensures Valid()
      ensures AllPieces(pending, limit) == AllPieces(old(pending), limit)
      ensures OversizedCount(pending, limit) < OversizedCount(old(pending), limit)
    {
      hide EncodePacket, FragmentPacket, ParsePacket;
      var write := pending[0];
      pending := pending[1..];
      assert forall id :: Owed(pending, nextUniId, id) == Owed(old(pending), nextUniId, id);
      var parsed := ParsePacket(write.dgram);
      if parsed.Ok? && FragmentPacket(parsed.value, limit).Ok? {
        var fs := FragmentPacket(parsed.value, limit).value;
        FragmentsFitAndRebuild(parsed.value, limit);
        CutInPlace(write, parsed.value, pending, limit);
        forall id ensures Owed(DatagramWrites(write.dgramAssoc, fs) + pending, nextUniId, id) == Owed(pending, nextUniId, id) {
          DatagramsOweNothing(write.dgramAssoc, fs, pending, nextUniId, id);
        }
        DatagramsOweNothing(write.dgramAssoc, fs, pending, nextUniId, 0);
        RequeueFront(write.dgramAssoc, fs);
      }
    }

    method SendFirst(ghost limit: nat)
      requires Valid() && pending != [] && pending[0].Datagram? && |pending[0].dgram| <= limit
      modifies this`pending, this`wire
      ensures Valid() && pending == old(pending)[1..] && DatagramsOf(wire) == DatagramsOf(old(wire)) + [old(pending)[0].dgram]
      ensures DatagramsOf(wire) + AllPieces(pending, limit) == DatagramsOf(old(wire)) + AllPieces(old(pending), limit)
      ensures OversizedCount(pending, limit) == OversizedCount(old(pending), limit)
    {
      var item := OnDatagram(pending[0].dgram);
      FirstDatagram(pending, limit);
      hide Pieces, AllPieces, OversizedCount, DatagramsOf, Account;
      forall id ensures Account(wire + [item], pending[1..], nextUniId, id) == Account(wire, pending, nextUniId, id) {
        SendDatagramFirst(wire, pending, nextUniId, id);
      }
      LogItem(wire, item, 0);
      Associate(DatagramsOf(wire), [item.payload], AllPieces(pending[1..], limit));
      wire, pending := wire + [item], pending[1..];
    }

    /** Sends the first write, a datagram, or cuts it in place if it is too long. */
    method DatagramStep(net: Script, limit: nat) returns (flow: Flow)
      requires Valid() && pending != [] && pending[0].Datagram?
      modifies this`pending, this`wire, this`calls
      ensures flow != Fail ==> Valid()
      ensures DatagramsOf(wire) == DatagramsOf(old(wire)) ||
              (|old(pending)[0].dgram| <= limit && DatagramsOf(wire) == DatagramsOf(old(wire)) + [old(pending)[0].dgram])
      ensures calls == old(calls) + 1 && flow == DatagramFlow(DatagramSend(net(old(calls)), limit, old(pending)[0].dgram))
      ensures flow == Fail ==> DatagramsOf(wire) == DatagramsOf(old(wire))
      ensures flow == Stop ==> pending == old(pending)
      ensures flow != Fail ==>
                DatagramsOf(wire) + AllPieces(pending, limit) == DatagramsOf(old(wire)) + AllPieces(old(pending), limit)
      ensures flow == Continue ==>
                OversizedCount(pending, limit) < OversizedCount(old(pending), limit) ||
                (OversizedCount(pending, limit) == OversizedCount(old(pending), limit) && |pending| < |old(pending)|)
    {
      hide AllPieces, OversizedCount, DatagramsOf, Valid;
      var write := pending[0];
      var result := DatagramSend(net(calls), limit, write.dgram);
      calls := calls + 1;
      match result {
        case Sent =>
          SendFirst(limit);
          flow := Continue;
        case QueueFull =>
          flow := Stop;
        case TooLong =>
          CutFirst(limit);
          flow := Continue;
        case Failed =>
          pending := pending[1..];
          flow := Fail;
      }
    }

    /** A close sends an empty FIN and ignores the answer. */
    method CloseStep()
      requires Valid() && pending != [] && pending[0].Close?
      modifies this`pending, this`wire, this`calls
      ensures Valid() && pending == old(pending)[1..] && DatagramsOf(wire) == DatagramsOf(old(wire))
      ensures calls == old(calls) + 1
    {
      ghost var q := pending;
      var item := OnStream(pending[0].closeId, [Closed]);
      pending := pending[1..];
      calls := calls + 1;
      forall id ensures Account(wire + [item], pending, nextUniId, id) == Account(wire, q, nextUniId, id) {
        DeliverFirst(wire, q, nextUniId, id);
      }
      LogItem(wire, item, 0);
      wire := wire + [item];
    }

    /** One write of any kind. */
    method WriteStep(net: Script, limit: nat) returns (flow: Flow)
      requires Valid() && pending != []
      modifies this`pending, this`nextUniId, this`wire, this`calls
      ensures flow != Fail ==> Valid()
      ensures DatagramsOf(old(wire)) <= DatagramsOf(wire)
      ensures forall i :: |DatagramsOf(old(wire))| <= i < |DatagramsOf(wire)| ==> |DatagramsOf(wire)[i]| <= limit
      ensures flow == Fail ==> DatagramsOf(wire) == DatagramsOf(old(wire))
      ensures flow != Fail ==>
                DatagramsOf(wire) + AllPieces(pending, limit) == DatagramsOf(old(wire)) + AllPieces(old(pending), limit)
      ensures flow == Continue ==>
                OversizedCount(pending, limit) < OversizedCount(old(pending), limit) ||
                (OversizedCount(pending, limit) == OversizedCount(old(pending), limit) && |pending| < |old(pending)|)
      ensures calls > 0 && (flow == Fail ==> net(calls - 1).Broken?) && (flow == Stop ==> pending != [] && Stalled(net(calls - 1), pending[0]))
    {
      hide Pieces, Valid, DatagramsOf;
      flow := Continue;
      match pending[0] {
        case Data(_, _, _) =>
          flow := StreamStep(net);
        case UniStream(_, _, _) =>
          flow := StreamStep(net);
        case Datagram(_, _) =>
          flow := DatagramStep(net, limit);
        case Close(_) =>
          CloseStep();
      }
    }

    /**
     One drain under a fixed datagram limit: it ends, it keeps every stream's account, and the
     datagrams sent, followed by those still owed, are those that were owed. Writes remain only
     because the transport stalled, and it fails only because the transport broke.
     */
    method ProcessWrites(net: Script, limit: nat) returns (ok: bool)
      requires Valid()
      modifies this`pending, this`nextUniId, this`wire, this`calls
      ensures ok ==> Valid()
      ensures DatagramsOf(old(wire)) <= DatagramsOf(wire) <= DatagramsOf(old(wire)) + AllPieces(old(pending), limit)
      ensures ok ==>
                DatagramsOf(wire) + AllPieces(pending, limit) == DatagramsOf(old(wire)) + AllPieces(old(pending), limit)
      ensures forall i :: |DatagramsOf(old(wire))| <= i < |DatagramsOf(wire)| ==> |DatagramsOf(wire)[i]| <= limit
      ensures ok && pending != [] ==> calls > 0 && Stalled(net(calls - 1), pending[0])
      ensures !ok ==> calls > 0 && net(calls - 1).Broken?
    {
      hide AllPieces, OversizedCount, DatagramsOf, Valid;
      while pending != []
        invariant Valid()
        invariant DatagramsOf(wire) + AllPieces(pending, limit) == DatagramsOf(old(wire)) + AllPieces(old(pending), limit)
        invariant DatagramsOf(old(wire)) <= DatagramsOf(wire)
        invariant forall i :: |DatagramsOf(old(wire))| <= i < |DatagramsOf(wire)| ==> |DatagramsOf(wire)[i]| <= limit
        decreases OversizedCount(pending, limit), |pending|
      {
        var flow := WriteStep(net, limit);
        if flow == Fail {
          return false;
        }
        if flow == Stop {
          return true;
        }
      }
      ok := true;
    }
  }

  // Stream numbers

  /** Relayed streams are the client's (multiples of 4, section 2.1 of RFC 9000); messages are handed over unnumbered. */
  predicate FromTasks(w: QuicWrite) {
    match w
    case Data(id, _, _) => id % 4 == 0
    case Close(id) => id % 4 == 0
    case UniStream(_, id, _) => id.None?
    case Datagram(_, _) => true
  }

  predicate AllFromTasks(q: seq<QuicWrite>) {
    forall k :: 0 <= k < |q| ==> FromTasks(q[k])
  }

  lemma {:induction false} OthersKeepOff(q: seq<QuicWrite>, next: nat, id: nat)
    requires AllFromTasks(q)
    requires id % 4 == 3 && next % 4 == 3 && (id < next || NextAfter(q, next) <= id)
    ensures Owed(q, next, id) == []
    ensures next <= NextAfter(q, next) && NextAfter(q, next) % 4 == 3
    decreases |q|
  {
    if q != [] {
      NumbersGrow(q[1..], NextId(q[0], next));
      OthersKeepOff(q[1..], NextId(q[0], next), id);
    }
  }

  lemma {:induction false} NumbersGrow(q: seq<QuicWrite>, next: nat)
    ensures next <= NextAfter(q, next) && NextAfter(q, next) % 4 == next % 4
    decreases |q|
  {
    if q != [] {
      NumbersGrow(q[1..], NextId(q[0], next));
    }
  }

  /** A message handed over later gets a larger number. */
  lemma LaterNumbersDiffer(history: seq<QuicWrite>, i: nat, j: nat)
    requires i < j <= |history| && Unnumbered(history[i])
    ensures NextAfter(history[..i], FIRST_UNI_ID) < NextAfter(history[..j], FIRST_UNI_ID)
  {
    var id := NextAfter(history[..i], FIRST_UNI_ID);
    var tail := [history[i]] + history[i + 1..j];
    assert history[..j] == history[..i] + tail;
    OwedAppend(history[..i], tail, FIRST_UNI_ID, id);
    assert tail[1..] == history[i + 1..j];
    NumbersGrow(history[i + 1..j], id + 4);
  }

  lemma OwedAround(before: seq<QuicWrite>, w: QuicWrite, after: seq<QuicWrite>, id: nat)
    requires AllFromTasks(before) && AllFromTasks(after) && Unnumbered(w)
    requires id == NextAfter(before, FIRST_UNI_ID) && id % 4 == 3
    ensures Owed(before + ([w] + after), FIRST_UNI_ID, id) == Symbols(w)
  {
    hide Owed, NextAfter, Symbols, AllFromTasks;
    OthersKeepOff(before, FIRST_UNI_ID, id);
    OthersKeepOff(after, id + 4, id);
    FirstOwed(w, after, id);
    OwedAppend(before, [w] + after, FIRST_UNI_ID, id);
    assert [] + Symbols(w) == Symbols(w);
  }

  /**
   The i-th write of a history, a uni-stream message, has one stream number for good: it is 3
   mod 4, and all that its stream is ever owed is that message and its FIN.
   */
  lemma MessageHasItsOwnStream(history: seq<QuicWrite>, i: nat)
    requires AllFromTasks(history)
    requires i < |history| && history[i].UniStream?
    ensures var id := NextAfter(history[..i], FIRST_UNI_ID);
            id % 4 == 3 && Owed(history, FIRST_UNI_ID, id) == Octets(history[i].message) + [Fin]
  {
    assert Symbols(history[i]) == Octets(history[i].message) + [Fin];
    Around(history, i);
    hide Owed, NextAfter, Symbols, AllFromTasks;
    NumbersGrow(history[..i], FIRST_UNI_ID);
    OwedAround(history[..i], history[i], history[i + 1..], NextAfter(history[..i], FIRST_UNI_ID));
  }

  lemma Around(history: seq<QuicWrite>, i: nat)
    requires AllFromTasks(history) && i < |history|
    ensures AllFromTasks(history[..i]) && AllFromTasks(history[i + 1..]) && FromTasks(history[i])
    ensures history == history[..i] + ([history[i]] + history[i + 1..])
  {}

  lemma FirstOwed(w: QuicWrite, rest: seq<QuicWrite>, id: nat)
    requires Unnumbered(w) && Owed(rest, id + 4, id) == []
    ensures Owed([w] + rest, id, id) == Symbols(w)
  {
    assert ([w] + rest)[1..] == rest;
  }

  // Client streams

  /** All data written for a client stream. */
  function Written(history: seq<QuicWrite>, id: nat): (r: seq<byte>) {
    if history == [] then []
    else if history[0].Data? && history[0].streamId == id then history[0].data + Written(history[1..], id)
    else Written(history[1..], id)
  }

  function OctetsIn(symbols: seq<Symbol>): (r: seq<byte>) {
    if symbols == [] then []
    else if symbols[0].Octet? then [symbols[0].b] + OctetsIn(symbols[1..])
    else OctetsIn(symbols[1..])
  }

  /** What a client stream may be told: its data as far as a FIN, if there is one, and at last that it is closed. */
  function Ending(history: seq<QuicWrite>, id: nat): (r: seq<Symbol>) {
    if history == [] then []
    else
      match history[0]
      case Data(to, _, fin) => FinIf(fin && to == id) + Ending(history[1..], id)
      case Close(to) => (if to == id then [Closed] else []) + Ending(history[1..], id)
      case _ => Ending(history[1..], id)
  }

  function Marks(symbols: seq<Symbol>): (r: seq<Symbol>) {
    if symbols == [] then []
    else if symbols[0].Octet? then Marks(symbols[1..])
    else [symbols[0]] + Marks(symbols[1..])
  }

  lemma {:induction false} SymbolsAppend(a: seq<Symbol>, b: seq<Symbol>)
    ensures OctetsIn(a + b) == OctetsIn(a) + OctetsIn(b) && Marks(a + b) == Marks(a) + Marks(b)
  {
    if a == [] {
      assert a + b == b;
    } else {
      assert (a + b)[1..] == a[1..] + b;
      SymbolsAppend(a[1..], b);
    }
  }

  lemma {:induction false} OctetsRead(data: seq<byte>)
    ensures OctetsIn(Octets(data)) == data && Marks(Octets(data)) == []
  {
    if data != [] {
      assert Octets(data)[1..] == Octets(data[1..]);
      OctetsRead(data[1..]);
    }
  }

  lemma SymbolsOfWrite(w: QuicWrite)
    requires w.Data? || w.Close?
    ensures OctetsIn(Symbols(w)) == if w.Data? then w.data else []
    ensures Marks(Symbols(w)) == if w.Data? then FinIf(w.fin) else [Closed]
  {
    if w.Data? {
      OctetsRead(w.data);
      SymbolsAppend(Octets(w.data), FinIf(w.fin));
      assert w.fin ==> FinIf(w.fin)[1..] == [];
    } else {
      assert [Closed][1..] == [];
    }
  }

  /**
   A client stream is owed exactly the data written for it, in order, a FIN for each write that
   ends it, and its closing; nothing written for another stream and no message gets there.
   */
  lemma {:induction false} ClientStreamOwed(history: seq<QuicWrite>, next: nat, id: nat)
    requires AllFromTasks(history) && id % 4 == 0 && next % 4 == 3
    ensures OctetsIn(Owed(history, next, id)) == Written(history, id)
    ensures Marks(Owed(history, next, id)) == Ending(history, id)
    decreases |history|
  {
    hide Symbols, OctetsIn, Marks;
    if history == [] {
      SymbolsOfNothing();
    } else {
      var w := history[0];
      assert FromTasks(w);
      ClientStreamOwed(history[1..], NextId(w, next), id);
      if StreamOf(w, next) == Some(id) {
        SymbolsOfWrite(w);
        SymbolsAppend(Symbols(w), Owed(history[1..], NextId(w, next), id));
      }
    }
  }

  lemma SymbolsOfNothing()
    ensures OctetsIn([]) == [] && Marks([]) == []
  {}
}
