/**
 Target addresses and their wire grammar.

 Every protocol writes an address as a tag byte, then either raw IP octets or a
 length-prefixed host, then a big-endian port; only the tag bytes differ
 (section 5 of RFC 1928 for SOCKS5 and AnyTLS). `ParseAddr` is the reference
 reading of that grammar: it says of any prefix of a stream whether an address
 is complete, unfinished or malformed.
 */
module Addresses {
  import opened Bytes

  type Octets4 = s: seq<byte> | |s| == 4 witness [0, 0, 0, 0]
  type Octets16 = s: seq<byte> | |s| == 16 witness seq(16, _ => 0)

  datatype IpAddr = V4(v4: Octets4) | V6(v6: Octets16)
  datatype SocketAddr = SocketAddr(ip: IpAddr, port: u16)
  datatype TargetAddr = Ip(addr: SocketAddr) | Domain(host: Utf8, hostPort: u16)

  /** The tag bytes of one dialect of the grammar. */
  datatype Tags = Tags(v4: byte, v6: byte, domain: byte) {
    predicate Distinct() {
      v4 != v6 && v6 != domain && domain != v4
    }
  }

  const SOCKS := Tags(0x01, 0x04, 0x03)
  const UOT_PACKET := Tags(0x00, 0x01, 0x02)
  const TUIC := Tags(0x01, 0x02, 0x00)

  function EncodeAddr(tags: Tags, t: TargetAddr): (r: Result<seq<byte>>) {
    match t
    case Ip(SocketAddr(V4(octets), port)) => Ok([tags.v4] + octets + Be16(port))
    case Ip(SocketAddr(V6(octets), port)) => Ok([tags.v6] + octets + Be16(port))
    case Domain(host, port) =>
      if |host| > 255 then Err else Ok([tags.domain, |host|] + host + Be16(port))
  }

  function ParseAddr(tags: Tags, data: seq<byte>): (r: Parse<TargetAddr>)
    ensures r.Done? ==> 0 < r.used <= |data|
  {
    if |data| < 1 then NeedMore
    else if data[0] == tags.v4 then
      if |data| < 7 then NeedMore
      else Done(Ip(SocketAddr(V4(data[1..5]), U16(data[5], data[6]))), 7)
    else if data[0] == tags.v6 then
      if |data| < 19 then NeedMore
      else Done(Ip(SocketAddr(V6(data[1..17]), U16(data[17], data[18]))), 19)
    else if data[0] == tags.domain then
      if |data| < 2 then NeedMore
      else
        var n: nat := data[1];
        if |data| < n + 4 then NeedMore
        else if !ValidUtf8(data[2..n + 2]) then Invalid
        else Done(Domain(data[2..n + 2], U16(data[n + 2], data[n + 3])), n + 4)
    else Invalid
  }

  /** An encoded address is read back whatever follows it, and exactly its own bytes are used. */
  lemma EncodeParse(tags: Tags, t: TargetAddr, rest: seq<byte>)
    requires tags.Distinct()
    requires EncodeAddr(tags, t).Ok?
    ensures ParseAddr(tags, EncodeAddr(tags, t).value + rest) == Done(t, |EncodeAddr(tags, t).value|)
  {
    var data := EncodeAddr(tags, t).value + rest;
    match t {
      case Ip(SocketAddr(V4(octets), port)) =>
        Be16RoundTrip(port);
        assert data[1..5] == octets;
      case Ip(SocketAddr(V6(octets), port)) =>
        Be16RoundTrip(port);
        assert data[1..17] == octets;
      case Domain(host, port) =>
        Be16RoundTrip(port);
        assert data[2..|host| + 2] == host;
    }
  }

  /** Whatever parses re-encodes to the very bytes that were used. */
  lemma ParseEncode(tags: Tags, data: seq<byte>)
    requires ParseAddr(tags, data).Done?
    ensures EncodeAddr(tags, ParseAddr(tags, data).value) == Ok(data[..ParseAddr(tags, data).used])
  {
    var Done(t, used) := ParseAddr(tags, data);
    U16RoundTrip(data[used - 2], data[used - 1]);
    match t {
      case Ip(SocketAddr(V4(octets), port)) =>
        assert data[..7] == [tags.v4] + octets + Be16(port);
      case Ip(SocketAddr(V6(octets), port)) =>
        assert data[..19] == [tags.v6] + octets + Be16(port);
      case Domain(host, port) =>
        assert data[..used] == [tags.domain, |host|] + host + Be16(port);
    }
  }

  /** A verdict, once reached, does not change when more bytes arrive. */
  lemma AddrStable(tags: Tags, data: seq<byte>, rest: seq<byte>)
    requires !ParseAddr(tags, data).NeedMore?
    ensures ParseAddr(tags, data + rest) == ParseAddr(tags, data)
  {
    var all := data + rest;
    if data[0] == tags.v4 {
      assert all[1..5] == data[1..5];
    } else if data[0] == tags.v6 {
      assert all[1..17] == data[1..17];
    } else if data[0] == tags.domain {
      assert all[2..data[1] + 2] == data[2..data[1] + 2];
    }
  }
}

/** src/protocol/socks5/codec.rs and the request reader of src/protocol/socks5/inbound.rs. */
module Socks5Codec {
  import opened Bytes
  import opened Addresses

  const CMD_CONNECT: byte := 0x01
  const CMD_UDP_ASSOCIATE: byte := 0x03

  // The slice decoder moves a cursor over the data, field by field.

  function ReadExact(data: seq<byte>, pos: nat, n: nat): (r: Result<(seq<byte>, nat)>)
    requires pos <= |data|
    ensures r.Ok? ==> |r.value.0| == n && r.value.1 == pos + n <= |data|
  {
    if pos + n <= |data| then Ok((data[pos..pos + n], pos + n)) else Err
  }

  function DecodeAddr(data: seq<byte>): (r: Result<(TargetAddr, nat)>) {
    var (atyp, p0) :- ReadExact(data, 0, 1);
    if atyp[0] == 0x01 then
      var (octets, p1) :- ReadExact(data, p0, 4);
      var (port, p2) :- ReadExact(data, p1, 2);
      Ok((Ip(SocketAddr(V4(octets), U16(port[0], port[1]))), p2))
    else if atyp[0] == 0x03 then
      var (len, p1) :- ReadExact(data, p0, 1);
      var (host, p2) :- ReadExact(data, p1, len[0]);
      var (port, p3) :- ReadExact(data, p2, 2);
      if ValidUtf8(host) then Ok((Domain(host, U16(port[0], port[1])), p3)) else Err
    else if atyp[0] == 0x04 then
      var (octets, p1) :- ReadExact(data, p0, 16);
      var (port, p2) :- ReadExact(data, p1, 2);
      Ok((Ip(SocketAddr(V6(octets), U16(port[0], port[1]))), p2))
    else Err
  }

  /** The slice decoder accepts exactly the complete well-formed addresses, with the same length. */
  lemma SliceDecoderAgrees(data: seq<byte>)
    ensures DecodeAddr(data) ==
            match ParseAddr(SOCKS, data) {
              case Done(t, used) => Ok((t, used))
              case NeedMore => Err
              case Invalid => Err
            }
  {
    if data != [] {
      if data[0] == 0x03 {
        DecodesDomain(data);
      } else {
        DecodesIp(data);
      }
      hide DecodeAddr;
    }
  }

  lemma DecodesIp(data: seq<byte>)
    requires data != [] && data[0] != 0x03
    ensures DecodeAddr(data) ==
            if data[0] == 0x01 && |data| >= 7 then Ok((Ip(SocketAddr(V4(data[1..5]), U16(data[5], data[6]))), 7))
            else if data[0] == 0x04 && |data| >= 19 then Ok((Ip(SocketAddr(V6(data[1..17]), U16(data[17], data[18]))), 19))
            else Err
  {
    assert data[0..1][0] == data[0];
  }

  lemma DecodesDomain(data: seq<byte>)
    requires data != [] && data[0] == 0x03
    ensures DecodeAddr(data) ==
            if |data| < 2 || |data| < (data[1] as int) + 4 then Err
            else
              var n: nat := data[1];
              if ValidUtf8(data[2..n + 2]) then Ok((Domain(data[2..n + 2], U16(data[n + 2], data[n + 3])), n + 4)) else Err
  {
    hide ValidUtf8;
    assert data[0..1][0] == data[0];
    if |data| >= 2 {
      assert data[1..2][0] == data[1];
    }
  }

  // The request reader takes its fields off the front of a byte stream.

  datatype Request = Connect(target: TargetAddr) | UdpAssociate(target: TargetAddr)

  function Take(stream: seq<byte>, n: nat): (r: Result<(seq<byte>, seq<byte>)>)
    ensures r.Ok? ==> |r.value.0| == n && r.value.0 + r.value.1 == stream
  {
    if n <= |stream| then Ok((stream[..n], stream[n..])) else Err
  }

  function ReadTarget(stream: seq<byte>): (r: Result<(TargetAddr, seq<byte>)>) {
    var (atyp, s0) :- Take(stream, 1);
    if atyp[0] == 0x01 then
      var (octets, s1) :- Take(s0, 4);
      var (port, s2) :- Take(s1, 2);
      Ok((Ip(SocketAddr(V4(octets), U16(port[0], port[1]))), s2))
    else if atyp[0] == 0x03 then
      var (len, s1) :- Take(s0, 1);
      var (host, s2) :- Take(s1, len[0]);
      var (port, s3) :- Take(s2, 2);
      if ValidUtf8(host) then Ok((Domain(host, U16(port[0], port[1])), s3)) else Err
    else if atyp[0] == 0x04 then
      var (octets, s1) :- Take(s0, 16);
      var (port, s2) :- Take(s1, 2);
      Ok((Ip(SocketAddr(V6(octets), U16(port[0], port[1]))), s2))
    else Err
  }

  function ReadRequest(stream: seq<byte>): (r: Result<(Request, seq<byte>)>) {
    var (head, body) :- Take(stream, 3);
    if head[0] != 0x05 || head[2] != 0 then Err
    else
      var (target, rest) :- ReadTarget(body);
      if head[1] == CMD_CONNECT then Ok((Connect(target), rest))
      else if head[1] == CMD_UDP_ASSOCIATE then Ok((UdpAssociate(target), rest))
      else Err
  }

  /** The stream reader accepts the same addresses and leaves precisely what follows them. */
  lemma StreamReaderAgrees(stream: seq<byte>)
    ensures ReadTarget(stream) ==
            match ParseAddr(SOCKS, stream) {
              case Done(t, used) => Ok((t, stream[used..]))
              case NeedMore => Err
              case Invalid => Err
            }
  {
    if |stream| >= 1 {
      if stream[0] == 0x01 {
        ReadsV4(stream);
      } else if stream[0] == 0x04 {
        ReadsV6(stream);
      } else if stream[0] == 0x03 {
        ReadsDomain(stream);
      }
    }
  }

  lemma ReadsV4(stream: seq<byte>)
    requires |stream| >= 1 && stream[0] == 0x01
    ensures ReadTarget(stream) ==
            if |stream| < 7 then Err else Ok((Ip(SocketAddr(V4(stream[1..5]), U16(stream[5], stream[6]))), stream[7..]))
  {
    if |stream| >= 7 {
      assert stream[1..][..4] == stream[1..5];
      assert stream[1..][4..] == stream[5..];
      assert stream[5..][2..] == stream[7..];
    }
  }

  lemma ReadsV6(stream: seq<byte>)
    requires |stream| >= 1 && stream[0] == 0x04
    ensures ReadTarget(stream) ==
            if |stream| < 19 then Err else Ok((Ip(SocketAddr(V6(stream[1..17]), U16(stream[17], stream[18]))), stream[19..]))
  {
    if |stream| >= 19 {
      assert stream[1..][..16] == stream[1..17];
      assert stream[1..][16..] == stream[17..];
      assert stream[17..][2..] == stream[19..];
    }
  }

  lemma ReadsDomain(stream: seq<byte>)
    requires |stream| >= 1 && stream[0] == 0x03
    ensures ReadTarget(stream) ==
            if |stream| < 2 || |stream| < (stream[1] as int) + 4 then Err
            else
              var n: nat := stream[1];
              if ValidUtf8(stream[2..n + 2]) then Ok((Domain(stream[2..n + 2], U16(stream[n + 2], stream[n + 3])), stream[n + 4..]))
              else Err
  {
    hide ValidUtf8;
    if |stream| >= 2 {
      var n: nat := stream[1];
      assert stream[1..][1..] == stream[2..];
      if n + 2 <= |stream| {
        assert stream[2..][..n] == stream[2..n + 2];
        assert stream[2..][n..] == stream[n + 2..];
      }
      if n + 4 <= |stream| {
        assert stream[n + 2..][2..] == stream[n + 4..];
      }
    }
  }

  /** A request written as version, command, reserved byte and address is read back, and nothing after it is touched. */
  lemma RequestRoundTrip(request: Request, rest: seq<byte>)
    requires EncodeAddr(SOCKS, request.target).Ok?
    ensures var cmd := if request.Connect? then CMD_CONNECT else CMD_UDP_ASSOCIATE;
            ReadRequest([0x05, cmd, 0] + EncodeAddr(SOCKS, request.target).value + rest) == Ok((request, rest))
  {
    var cmd := if request.Connect? then CMD_CONNECT else CMD_UDP_ASSOCIATE;
    var addr := EncodeAddr(SOCKS, request.target).value;
    var stream := [0x05, cmd, 0] + addr + rest;
    assert stream[3..] == addr + rest;
    EncodeParse(SOCKS, request.target, rest);
    StreamReaderAgrees(addr + rest);
    assert (addr + rest)[|addr|..] == rest;
  }

  lemma TargetReencodes(stream: seq<byte>)
    requires ReadTarget(stream).Ok?
    ensures var (target, rest) := ReadTarget(stream).value;
            EncodeAddr(SOCKS, target).Ok? && stream == EncodeAddr(SOCKS, target).value + rest
  {
    StreamReaderAgrees(stream);
    ParseEncode(SOCKS, stream);
    hide *;
    TakeDrop(stream, ParseAddr(SOCKS, stream).used);
  }

  lemma RequestParts(stream: seq<byte>)
    requires ReadRequest(stream).Ok?
    ensures |stream| >= 3 && ReadTarget(stream[3..]).Ok?
    ensures var (request, rest) := ReadRequest(stream).value;
            && (request.target, rest) == ReadTarget(stream[3..]).value
            && stream[..3] == [0x05, if request.Connect? then 0x01 else 0x03, 0]
  {
    hide ReadTarget;
  }

  /** Nothing else is read as a request: whatever is read as one was written so. */
  lemma RequestReencodes(stream: seq<byte>)
    requires ReadRequest(stream).Ok?
    ensures var (request, rest) := ReadRequest(stream).value;
            && EncodeAddr(SOCKS, request.target).Ok?
            && stream == [0x05, if request.Connect? then 0x01 else 0x03, 0] + EncodeAddr(SOCKS, request.target).value + rest
  {
    hide *;
    RequestParts(stream);
    TargetReencodes(stream[3..]);
    TakeDrop(stream, 3);
    var (target, rest) := ReadTarget(stream[3..]).value;
    Associate(stream[..3], EncodeAddr(SOCKS, target).value, rest);
  }

  // UDP request header (section 7 of RFC 1928)

  function EncodeUdpPacket(target: TargetAddr, payload: seq<byte>): (r: Result<seq<byte>>) {
    var addr :- EncodeAddr(SOCKS, target);
    Ok([0, 0, 0] + addr + payload)
  }

  function DecodeUdpPacket(data: seq<byte>): (r: Result<(TargetAddr, seq<byte>)>) {
    if |data| < 4 then Err
    else if data[0] != 0 || data[1] != 0 then Err
    else if data[2] != 0 then Err
    else
      var (target, consumed) :- DecodeAddr(data[3..]);
      SliceDecoderAgrees(data[3..]);
      Ok((target, data[3 + consumed..]))
  }

  lemma UdpPacketDecodes(target: TargetAddr, payload: seq<byte>)
    requires EncodeUdpPacket(target, payload).Ok?
    ensures DecodeUdpPacket(EncodeUdpPacket(target, payload).value) == Ok((target, payload))
  {
    hide EncodeAddr, ParseAddr, DecodeAddr;
    var addr := EncodeAddr(SOCKS, target).value;
    EncodeParse(SOCKS, target, payload);
    SliceDecoderAgrees(addr + payload);
    var data := [0, 0, 0] + addr + payload;
    Associate([0, 0, 0], addr, payload);
    assert data[3..] == addr + payload;
    assert data[3 + |addr|..] == payload;
  }

  lemma UdpPacketReencodes(data: seq<byte>)
    requires DecodeUdpPacket(data).Ok?
    ensures EncodeUdpPacket(DecodeUdpPacket(data).value.0, DecodeUdpPacket(data).value.1) == Ok(data)
  {
    SliceDecoderAgrees(data[3..]);
    ParseEncode(SOCKS, data[3..]);
    hide EncodeAddr, ParseAddr, DecodeAddr;
    var used := ParseAddr(SOCKS, data[3..]).used;
    assert data == [0, 0, 0] + data[3..][..used] + data[3 + used..];
  }

  /** Decoding inverts encoding, and every packet that decodes is the encoding of what it decodes to. */
  lemma UdpPacketBijection(target: TargetAddr, payload: seq<byte>, data: seq<byte>)
    ensures EncodeUdpPacket(target, payload) == Ok(data) <==> DecodeUdpPacket(data) == Ok((target, payload))
  {
    hide EncodeUdpPacket, DecodeUdpPacket;
    if EncodeUdpPacket(target, payload).Ok? {
      UdpPacketDecodes(target, payload);
    }
    if DecodeUdpPacket(data).Ok? {
      UdpPacketReencodes(data);
    }
  }
}
