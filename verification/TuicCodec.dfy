/**
 src/protocol/tuic/codec.rs: TUIC v5 headers, UDP packets and their fragmentation.

 The header layout is the one of the TUIC v5 specification: version, command,
 then the command's fields in order, the address last.
 */
module TuicCodec {
  import opened Arithmetic
  import opened Bytes
  import opened Addresses

  const VERSION: byte := 0x05
  const CMD_AUTHENTICATE: byte := 0x00
  const CMD_CONNECT: byte := 0x01
  const CMD_PACKET: byte := 0x02
  const CMD_DISSOCIATE: byte := 0x03
  const CMD_HEARTBEAT: byte := 0x04
  const NO_ADDRESS: byte := 0xFF
  const AUTHENTICATE_LEN := 50
  const MAX_PAYLOAD := 0xFFFF

  type Uuid = s: seq<byte> | |s| == 16 witness seq(16, _ => 0)
  type Token = s: seq<byte> | |s| == 32 witness seq(32, _ => 0)

  datatype Header =
    | Authenticate(uuid: Uuid, token: Token)
    | Connect(connectAddr: Option<TargetAddr>)
    | PacketHeader(assoc: u16, pkt: u16, total: byte, id: byte, size: u16, packetAddr: Option<TargetAddr>)
    | Dissociate(dissociated: u16)
    | Heartbeat

  // Addresses: the shared grammar, plus a tag for "no address"

  function EncodeAddress(addr: Option<TargetAddr>): (r: Result<seq<byte>>) {
    match addr
    case None => Ok([NO_ADDRESS])
    case Some(t) => EncodeAddr(TUIC, t)
  }

  function ParseAddress(data: seq<byte>): (r: Parse<Option<TargetAddr>>)
    ensures r.Done? ==> 0 < r.used <= |data|
  {
    if |data| >= 1 && data[0] == NO_ADDRESS then Done(None, 1)
    else
      match ParseAddr(TUIC, data)
      case Done(t, used) => Done(Some(t), used)
      case NeedMore => NeedMore
      case Invalid => Invalid
  }

  // Headers

  function Marshal(h: Header): (r: Result<seq<byte>>) {
    match h
    case Authenticate(uuid, token) => Ok([VERSION, CMD_AUTHENTICATE] + uuid + token)
    case Connect(addr) =>
      var a :- EncodeAddress(addr);
      Ok([VERSION, CMD_CONNECT] + a)
    case PacketHeader(assoc, pkt, total, id, size, addr) =>
      var a :- EncodeAddress(addr);
      Ok([VERSION, CMD_PACKET] + Be16(assoc) + Be16(pkt) + [total, id] + Be16(size) + a)
    case Dissociate(assoc) => Ok([VERSION, CMD_DISSOCIATE] + Be16(assoc))
    case Heartbeat => Ok([VERSION, CMD_HEARTBEAT])
  }

  function ParseHeader(data: seq<byte>): (r: Parse<Header>)
    ensures r.Done? ==> 2 <= r.used <= |data|
  {
    if |data| < 1 then NeedMore
    else if data[0] != VERSION then Invalid
    else if |data| < 2 then NeedMore
    else if data[1] == CMD_AUTHENTICATE then
      if |data| < AUTHENTICATE_LEN then NeedMore
      else Done(Authenticate(data[2..18], data[18..50]), AUTHENTICATE_LEN)
    else if data[1] == CMD_CONNECT then
      match ParseAddress(data[2..])
      case Done(addr, used) => Done(Connect(addr), 2 + used)
      case NeedMore => NeedMore
      case Invalid => Invalid
    else if data[1] == CMD_PACKET then
      if |data| < 10 then NeedMore
      else
        match ParseAddress(data[10..])
        case Done(addr, used) =>
          Done(PacketHeader(U16(data[2], data[3]), U16(data[4], data[5]), data[6], data[7],
                            U16(data[8], data[9]), addr), 10 + used)
        case NeedMore => NeedMore
        case Invalid => Invalid
    else if data[1] == CMD_DISSOCIATE then
      if |data| < 4 then NeedMore else Done(Dissociate(U16(data[2], data[3])), 4)
    else if data[1] == CMD_HEARTBEAT then Done(Heartbeat, 2)
    else Invalid
  }

  lemma AddressStable(data: seq<byte>, rest: seq<byte>)
    requires !ParseAddress(data).NeedMore?
    ensures ParseAddress(data + rest) == ParseAddress(data)
  {
    if data[0] != NO_ADDRESS {
      AddrStable(TUIC, data, rest);
    }
  }

  /** A header verdict, once reached, does not change when more bytes arrive. */
  lemma HeaderStable(data: seq<byte>, rest: seq<byte>)
    requires !ParseHeader(data).NeedMore?
    ensures ParseHeader(data + rest) == ParseHeader(data)
  {
    var all := data + rest;
    if |data| >= 2 && data[0] == VERSION {
      if data[1] == CMD_AUTHENTICATE {
        assert all[2..18] == data[2..18] && all[18..50] == data[18..50];
      } else if data[1] == CMD_CONNECT {
        assert all[2..] == data[2..] + rest;
        AddressStable(data[2..], rest);
      } else if data[1] == CMD_PACKET {
        assert all[10..] == data[10..] + rest;
        AddressStable(data[10..], rest);
      }
    }
  }

  lemma AddressRoundTrip(addr: Option<TargetAddr>, rest: seq<byte>)
    requires EncodeAddress(addr).Ok?
    ensures ParseAddress(EncodeAddress(addr).value + rest) == Done(addr, |EncodeAddress(addr).value|)
  {
    if addr.Some? {
      EncodeParse(TUIC, addr.value, rest);
    }
  }

  lemma PacketHeaderRoundTrip(h: Header, rest: seq<byte>)
    requires h.PacketHeader? && Marshal(h).Ok?
    ensures ParseHeader(Marshal(h).value + rest) == Done(h, |Marshal(h).value|)
  {
    Be16RoundTrip(h.assoc);
    Be16RoundTrip(h.pkt);
    Be16RoundTrip(h.size);
    var a, data := EncodeAddress(h.packetAddr).value, Marshal(h).value + rest;
    AddressRoundTrip(h.packetAddr, rest);
    hide EncodeAddress, ParseAddress;
    assert data[10..] == a + rest;
  }

  /** Every marshalled header is read back whatever follows it. */
  lemma HeaderRoundTrip(h: Header, rest: seq<byte>)
    requires Marshal(h).Ok?
    ensures ParseHeader(Marshal(h).value + rest) == Done(h, |Marshal(h).value|)
  {
    var data := Marshal(h).value + rest;
    match h {
      case Authenticate(uuid, token) =>
        assert data[2..18] == uuid && data[18..50] == token;
      case Connect(addr) =>
        assert data[2..] == EncodeAddress(addr).value + rest;
        AddressRoundTrip(addr, rest);
      case PacketHeader(_, _, _, _, _, _) =>
        PacketHeaderRoundTrip(h, rest);
      case Dissociate(assoc) =>
        Be16RoundTrip(assoc);
      case Heartbeat =>
    }
  }

  // CONNECT on a client stream

  /** NeedMore is the source's Ok(None): the header may still be completed. */
  function TryParseConnect(data: seq<byte>): (r: Parse<TargetAddr>)
    ensures r.Done? ==> 2 <= r.used <= |data|
  {
    match ParseHeader(data)
    case Done(Connect(Some(t)), used) => Done(t, used)
    case Done(_, _) => Invalid
    case NeedMore => NeedMore
    case Invalid => Invalid
  }

  function EncodeConnect(target: TargetAddr, payload: seq<byte>): (r: Result<seq<byte>>) {
    var header :- Marshal(Connect(Some(target)));
    Ok(header + payload)
  }

  lemma ConnectStable(data: seq<byte>, rest: seq<byte>)
    requires !TryParseConnect(data).NeedMore?
    ensures TryParseConnect(data + rest) == TryParseConnect(data)
  {
    HeaderStable(data, rest);
  }

  /** The header of a CONNECT is found with its exact length whatever payload follows, and every strict prefix is unfinished. */
  lemma ConnectPrefixes(target: TargetAddr, payload: seq<byte>, split: nat)
    requires EncodeConnect(target, []).Ok?
    ensures var header := EncodeConnect(target, []).value;
            && EncodeConnect(target, payload) == Ok(header + payload)
            && TryParseConnect(header + payload) == Done(target, |header|)
            && (split < |header| ==> TryParseConnect(header[..split]).NeedMore?)
  {
    var header := Marshal(Connect(Some(target))).value;
    assert header + [] == header;
    HeaderRoundTrip(Connect(Some(target)), payload);
    HeaderRoundTrip(Connect(Some(target)), []);
    if split < |header| {
      assert header[..split] + header[split..] == header;
      if !TryParseConnect(header[..split]).NeedMore? {
        ConnectStable(header[..split], header[split..]);
        assert false;
      }
    }
  }

  // UDP packets

  datatype Packet = Packet(assocId: u16, pktId: u16, fragTotal: byte, fragId: byte,
                           target: Option<TargetAddr>, payload: seq<byte>)

  function EncodePacket(p: Packet): (r: Result<seq<byte>>)
    ensures r.Ok? ==> |p.payload| <= |r.value|
  {
    if p.fragTotal == 0 then Err
    else if p.fragId >= p.fragTotal then Err
    else if |p.payload| > MAX_PAYLOAD then Err
    else
      var header :- Marshal(PacketHeader(p.assocId, p.pktId, p.fragTotal, p.fragId, |p.payload|, p.target));
      Ok(header + p.payload)
  }

  /** The encoding of a packet that has one. */
  function Wire(p: Packet): (r: seq<byte>) {
    if EncodePacket(p).Ok? then EncodePacket(p).value else []
  }

  function Wires(ps: seq<Packet>): (r: seq<seq<byte>>)
    ensures |r| == |ps|
  {
    seq(|ps|, i requires 0 <= i < |ps| => Wire(ps[i]))
  }

  function ParsePacket(data: seq<byte>): (r: Result<Packet>)
    ensures r.Ok? ==> r.value.fragId < r.value.fragTotal
  {
    match ParseHeader(data)
    case Done(PacketHeader(assoc, pkt, total, id, size, addr), start) =>
      if total == 0 then Err
      else if id >= total then Err
      else if start + size > |data| then Err
      else Ok(Packet(assoc, pkt, total, id, addr, data[start..start + size]))
    case _ => Err
  }

  /** Every packet that encodes is parsed back, and bytes after its declared size are ignored. */
  lemma PacketRoundTrip(p: Packet, rest: seq<byte>)
    requires EncodePacket(p).Ok?
    ensures ParsePacket(EncodePacket(p).value + rest) == Ok(p)
  {
    var h := PacketHeader(p.assocId, p.pktId, p.fragTotal, p.fragId, |p.payload|, p.target);
    var header := Marshal(h).value;
    var data := EncodePacket(p).value + rest;
    assert data == header + (p.payload + rest);
    HeaderRoundTrip(h, p.payload + rest);
    assert data[|header|..|header| + |p.payload|] == p.payload;
  }

  lemma AddressEncodes(data: seq<byte>)
    requires ParseAddress(data).Done?
    ensures EncodeAddress(ParseAddress(data).value) == Ok(data[..ParseAddress(data).used])
  {
    if data[0] == NO_ADDRESS {
      assert data[..1] == [NO_ADDRESS];
    } else {
      ParseEncode(TUIC, data);
    }
  }

  /** Whatever parses as a packet re-encodes to the bytes it was read from, up to its declared size. */
  lemma PacketReencodes(data: seq<byte>)
    requires ParsePacket(data).Ok?
    ensures EncodePacket(ParsePacket(data).value).Ok?
    ensures EncodePacket(ParsePacket(data).value).value <= data
  {
    var p := ParsePacket(data).value;
    var Done(h, start) := ParseHeader(data);
    HeaderReencodes(data);
    hide Marshal, ParseHeader;
    assert p == Packet(h.assoc, h.pkt, h.total, h.id, h.packetAddr, data[start..start + h.size]);
    assert h == PacketHeader(p.assocId, p.pktId, p.fragTotal, p.fragId, |p.payload|, p.target);
    hide ParsePacket;
    assert EncodePacket(p) == Ok(data[..start] + p.payload);
    hide EncodePacket;
    SlicesJoin(data, start, start + h.size);
  }

  lemma SlicesJoin(data: seq<byte>, a: nat, b: nat)
    requires a <= b <= |data|
    ensures data[..a] + data[a..b] == data[..b] <= data
  {}

  lemma HeaderReencodes(data: seq<byte>)
    requires ParseHeader(data).Done? && ParseHeader(data).value.PacketHeader?
    ensures Marshal(ParseHeader(data).value) == Ok(data[..ParseHeader(data).used])
  {
    var Done(h, start) := ParseHeader(data);
    AddressEncodes(data[10..]);
    hide ParseAddress, EncodeAddress;
    U16RoundTrip(data[2], data[3]);
    U16RoundTrip(data[4], data[5]);
    U16RoundTrip(data[8], data[9]);
    assert data[..10] == [VERSION, CMD_PACKET] + Be16(h.assoc) + Be16(h.pkt) + [h.total, h.id] + Be16(h.size);
    assert data[..start] == data[..10] + data[10..][..start - 10];
  }

  // Fragmentation

  /** The slices of length `n`, the last one possibly shorter. */
  function Chunks(s: seq<byte>, n: nat): (r: seq<seq<byte>>)
    requires n > 0
    decreases |s|
  {
    if s == [] then [] else if |s| <= n then [s] else [s[..n]] + Chunks(s[n..], n)
  }

  function DivCeil(a: nat, b: nat): (r: nat)
    requires b > 0
  {
    (a + b - 1) / b
  }

  function Fragment(p: Packet, chunks: seq<seq<byte>>, i: nat): (f: Packet)
    requires i < |chunks| <= 255
  {
    Packet(p.assocId, p.pktId, |chunks|, i, if i == 0 then p.target else None, chunks[i])
  }

  function FragmentPacket(p: Packet, maxSize: nat): (r: Result<seq<Packet>>) {
    var encoded :- EncodePacket(p);
    if |encoded| <= maxSize then Ok([p])
    else if p.fragTotal != 1 || p.fragId != 0 then Err
    else
      var headerLen := |encoded| - |p.payload|;
      if maxSize <= headerLen then Err
      else
        var capacity := maxSize - headerLen;
        if DivCeil(|p.payload|, capacity) > 255 then Err
        else
          ChunkCount(p.payload, capacity);
          var chunks := Chunks(p.payload, capacity);
          Ok(seq(|chunks|, i requires 0 <= i < |chunks| => Fragment(p, chunks, i)))
  }

  /** What a packet needs in order to be encoded. */
  predicate Encodable(p: Packet) {
    && p.fragId < p.fragTotal && |p.payload| <= MAX_PAYLOAD
    && (p.target.Some? && p.target.value.Domain? ==> |p.target.value.host| <= 255)
  }

  /** The length of a packet's encoding, header first. */
  function HeaderSize(p: Packet): (n: nat) {
    10 + match p.target
         case None => 1
         case Some(Ip(addr)) => if addr.ip.V4? then 7 else 19
         case Some(Domain(host, _)) => 4 + |host|
  }

  lemma PacketSize(p: Packet)
    ensures EncodePacket(p).Ok? <==> Encodable(p)
    ensures EncodePacket(p).Ok? ==> |EncodePacket(p).value| == HeaderSize(p) + |p.payload|
  {}

  /**
   Exactly when a packet can be cut: it fits as it is, or it is whole, its header leaves room, and
   255 times that room is enough for its payload.
   */
  lemma CutExactlyWhen(p: Packet, maxSize: nat)
    ensures FragmentPacket(p, maxSize).Ok? <==>
            && Encodable(p)
            && (|| HeaderSize(p) + |p.payload| <= maxSize
                || (p.fragTotal == 1 && HeaderSize(p) < maxSize && |p.payload| <= 255 * (maxSize - HeaderSize(p))))
  {
    PacketSize(p);
    hide EncodePacket;
    if HeaderSize(p) < maxSize {
      CeilAtMost(|p.payload|, maxSize - HeaderSize(p), 255);
    }
  }

  lemma DivCeilStep(a: nat, b: nat)
    requires 0 < b < a
    ensures DivCeil(a, b) == 1 + DivCeil(a - b, b)
    ensures DivCeil(a - b, b) >= 1
  {
    var x := a - 1;
    DivUnique(x + b, b, x / b + 1, x % b);
    DivUnique(x, b, (x - b) / b + 1, (x - b) % b);
  }

  /** Slicing yields exactly the ceiling-division count that is announced as the fragment total. */
  lemma {:induction false} ChunkCount(s: seq<byte>, n: nat)
    requires n > 0
    ensures |Chunks(s, n)| == DivCeil(|s|, n)
    decreases |s|
  {
    if s == [] {
      DivUnique(n - 1, n, 0, n - 1);
    } else if |s| <= n {
      DivUnique(|s| + n - 1, n, 1, |s| - 1);
    } else {
      DivCeilStep(|s|, n);
      ChunkCount(s[n..], n);
    }
  }

  lemma {:induction false} ChunksRebuild(s: seq<byte>, n: nat)
    requires n > 0
    ensures Flatten(Chunks(s, n)) == s
    ensures forall i :: 0 <= i < |Chunks(s, n)| ==> 0 < |Chunks(s, n)[i]| <= n
    decreases |s|
  {
    if s == [] {
    } else if |s| <= n {
      FlattenSingle(s);
    } else {
      ChunksRebuild(s[n..], n);
      assert s == s[..n] + s[n..];
      assert ([s[..n]] + Chunks(s[n..], n))[1..] == Chunks(s[n..], n);
    }
  }

  function Payloads(ps: seq<Packet>): (r: seq<seq<byte>>)
    ensures |r| == |ps|
  {
    seq(|ps|, i requires 0 <= i < |ps| => ps[i].payload)
  }

  /** `fs` is a complete numbered cut of `p`: only the first part is addressed, none is empty, and the parts join to the payload. */
  predicate IsCutOf(fs: seq<Packet>, p: Packet) {
    && 2 <= |fs| <= 255
    && (forall i :: 0 <= i < |fs| ==>
          && fs[i].assocId == p.assocId && fs[i].pktId == p.pktId
          && fs[i].fragTotal == |fs| && fs[i].fragId == i
          && fs[i].target == (if i == 0 then p.target else None)
          && fs[i].payload != [])
    && Flatten(Payloads(fs)) == p.payload
  }

  /** Cutting a packet either leaves it alone or produces a complete cut, and every piece encodes within the limit. */
  lemma FragmentsFitAndRebuild(p: Packet, maxSize: nat)
    requires FragmentPacket(p, maxSize).Ok?
    ensures var fs := FragmentPacket(p, maxSize).value;
            && (fs == [p] || (IsCutOf(fs, p) && p.fragTotal == 1 && p.fragId == 0))
            && (forall f :: f in fs ==> EncodePacket(f).Ok? && |EncodePacket(f).value| <= maxSize)
  {
    var encoded := EncodePacket(p).value;
    if |encoded| > maxSize {
      var headerLen := |encoded| - |p.payload|;
      var capacity := maxSize - headerLen;
      var chunks := Chunks(p.payload, capacity);
      var fs := FragmentPacket(p, maxSize).value;
      ChunkCount(p.payload, capacity);
      ChunksRebuild(p.payload, capacity);
      assert Payloads(fs) == chunks;
      assert |chunks| >= 2 by {
        DivCeilStep(|p.payload|, capacity);
      }
      forall i | 0 <= i < |fs|
        ensures EncodePacket(fs[i]).Ok? && |EncodePacket(fs[i]).value| <= maxSize
        ensures fs[i].payload != []
      {
        FragmentSize(p, chunks, i);
      }
    }
  }

  lemma FragmentSize(p: Packet, chunks: seq<seq<byte>>, i: nat)
    requires EncodePacket(p).Ok?
    requires i < |chunks| <= 255 && |chunks[i]| <= MAX_PAYLOAD
    ensures EncodePacket(Fragment(p, chunks, i)).Ok?
    ensures |EncodePacket(Fragment(p, chunks, i)).value| <= |EncodePacket(p).value| - |p.payload| + |chunks[i]|
  {}
}
