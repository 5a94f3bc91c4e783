/**
 UDP over a stream: the packet format of src/protocol/anytls/codec.rs and the chunked
 reader of src/protocol/anytls/inbound.rs.

 Stream data arrives as chunks of any size; the reader must behave as if it were one
 flat run of bytes. Parsers over that flat run are the specification of its methods.
 */
module AnytlsChunks {
  import opened Bytes
  import opened Addresses

  // Format

  function EncodeLenPayload(payload: seq<byte>): (r: Result<seq<byte>>) {
    if |payload| > 0xFFFF then Err else Ok(Be16(|payload|) + payload)
  }

  function ParseLenPayload(data: seq<byte>): (r: Parse<seq<byte>>)
    ensures r.Done? ==> 2 <= r.used <= |data|
  {
    if |data| < 2 then NeedMore
    else
      var len: nat := U16(data[0], data[1]);
      if |data| < 2 + len then NeedMore else Done(data[2..2 + len], 2 + len)
  }

  type UdpPacket = (TargetAddr, seq<byte>)

  function EncodeUotPacket(p: UdpPacket): (r: Result<seq<byte>>) {
    var addr :- EncodeAddr(UOT_PACKET, p.0);
    var body :- EncodeLenPayload(p.1);
    Ok(addr + body)
  }

  function ParseUotPacket(data: seq<byte>): (r: Parse<UdpPacket>)
    ensures r.Done? ==> 0 < r.used <= |data|
  {
    match ParseAddr(UOT_PACKET, data)
    case NeedMore => NeedMore
    case Invalid => Invalid
    case Done(target, used) =>
      match ParseLenPayload(data[used..])
      case NeedMore => NeedMore
      case Invalid => Invalid
      case Done(payload, more) => Done((target, payload), used + more)
  }

  /** The request address: the SOCKS grammar, with a second tag for domains. */
  function ParseRequestAddr(data: seq<byte>): (r: Parse<TargetAddr>)
    ensures r.Done? ==> 0 < r.used <= |data|
  {
    if |data| >= 1 && data[0] == 0x02 then ParseAddr(SOCKS, [0x03] + data[1..]) else ParseAddr(SOCKS, data)
  }

  /** The request reader departs from the SOCKS grammar on the tag 0x02 only, which SOCKS rejects. */
  lemma RequestAddrAgrees(data: seq<byte>)
    ensures if data != [] && data[0] == 0x02
            then ParseAddr(SOCKS, data).Invalid? && ParseRequestAddr(data) == ParseAddr(UOT_PACKET, data)
            else ParseRequestAddr(data) == ParseAddr(SOCKS, data)
  {
    if data != [] && data[0] == 0x02 {
      DomainTagIsIrrelevant(data[1..]);
      assert data == [0x02] + data[1..];
    }
  }

  lemma LenPayloadRoundTrip(payload: seq<byte>, rest: seq<byte>)
    requires EncodeLenPayload(payload).Ok?
    ensures ParseLenPayload(EncodeLenPayload(payload).value + rest) == Done(payload, |EncodeLenPayload(payload).value|)
  {
    Be16RoundTrip(|payload|);
    assert (Be16(|payload|) + payload + rest)[2..2 + |payload|] == payload;
  }

  lemma UotPacketRoundTrip(p: UdpPacket, rest: seq<byte>)
    requires EncodeUotPacket(p).Ok?
    ensures ParseUotPacket(EncodeUotPacket(p).value + rest) == Done(p, |EncodeUotPacket(p).value|)
  {
    hide ParseAddr, EncodeAddr;
    var addr, body := EncodeAddr(UOT_PACKET, p.0).value, EncodeLenPayload(p.1).value;
    assert addr + body + rest == addr + (body + rest);
    EncodeParse(UOT_PACKET, p.0, body + rest);
    assert (addr + (body + rest))[|addr|..] == body + rest;
    LenPayloadRoundTrip(p.1, rest);
  }

  /** All complete packets at the front of a run of bytes. */
  function DecodePackets(data: seq<byte>): (r: seq<UdpPacket>)
    decreases |data|
  {
    match ParseUotPacket(data)
    case Done(p, used) => [p] + DecodePackets(data[used..])
    case NeedMore => []
    case Invalid => []
  }

  predicate Encodable(ps: seq<UdpPacket>) {
    forall i :: 0 <= i < |ps| ==> EncodeUotPacket(ps[i]).Ok?
  }

  function EncodePackets(ps: seq<UdpPacket>): (r: seq<byte>)
    requires Encodable(ps)
  {
    if ps == [] then [] else EncodeUotPacket(ps[0]).value + EncodePackets(ps[1..])
  }

  lemma {:induction false} PacketsRoundTrip(ps: seq<UdpPacket>)
    requires Encodable(ps)
    ensures DecodePackets(EncodePackets(ps)) == ps
  {
    hide ParseUotPacket, EncodeUotPacket;
    if ps == [] {
      EmptyIsIncomplete();
    } else {
      var first, rest := EncodeUotPacket(ps[0]).value, EncodePackets(ps[1..]);
      UotPacketRoundTrip(ps[0], rest);
      assert (first + rest)[|first|..] == rest;
      PacketsRoundTrip(ps[1..]);
    }
  }

  lemma EmptyIsIncomplete()
    ensures ParseUotPacket([]).NeedMore?
  {}

  // Reader

  class ChunkReader {
    /** Chunks still to come; the channel is closed after the last. */
    var rx: seq<seq<byte>>
    var chunks: seq<seq<byte>>
    var frontOffset: nat
    var buffered: nat

    ghost predicate Valid()
      reads this
    {
      && (forall i :: 0 <= i < |chunks| ==> chunks[i] != [])
      && (if chunks == [] then frontOffset == 0 else frontOffset < |chunks[0]|)
      && frontOffset <= |Flatten(chunks)|
      && buffered == |Flatten(chunks)| - frontOffset
    }

    /** The bytes not yet read, whatever their chunking. */
    ghost function Ahead(): (s: seq<byte>)
      requires Valid()
      reads this
    {
      Flatten(chunks)[frontOffset..] + Flatten(rx)
    }

    constructor (rx: seq<seq<byte>>)
      ensures Valid() && Ahead() == Flatten(rx)
    {
      this.rx, chunks, frontOffset, buffered := rx, [], 0, 0;
    }

    /** Receives chunks until `len` bytes are buffered, or the channel closes. */
    method Fill(len: nat) returns (ok: bool)
      requires Valid()
      modifies this`rx, this`chunks, this`buffered
      ensures Valid() && Ahead() == old(Ahead())
      ensures ok <==> buffered >= len
      ensures !ok ==> rx == []
    {
      while buffered < len
        invariant Valid() && Ahead() == old(Ahead())
        decreases |rx|
      {
        if rx == [] {
          return false;
        }
        var chunk := rx[0];
        FlattenSnoc(chunks, chunk);
        ghost var before := Flatten(chunks);
        assert (before + chunk)[frontOffset..] + Flatten(rx[1..]) == before[frontOffset..] + (chunk + Flatten(rx[1..]));
        rx := rx[1..];
        buffered := buffered + |chunk|;
        if chunk != [] {
          chunks := chunks + [chunk];
        }
      }
      ok := true;
    }

    /** Takes up to `limit` bytes of the first chunk, which goes once it is used up. */
    method TakeFront(limit: nat) returns (part: seq<byte>)
      requires Valid() && chunks != [] && limit > 0
      modifies this`chunks, this`frontOffset, this`buffered
      ensures Valid() && part + Ahead() == old(Ahead())
      ensures 0 < |part| <= limit && buffered == old(buffered) - |part|
    {
      var front := chunks[0];
      FlattenAtLeastFirst(chunks);
      var available := |front| - frontOffset;
      var take := if limit < available then limit else available;
      AheadSplits(chunks, frontOffset, take, Flatten(rx));
      part := front[frontOffset..frontOffset + take];
      frontOffset := frontOffset + take;
      buffered := buffered - take;
      if frontOffset == |front| {
        chunks := chunks[1..];
        frontOffset := 0;
      }
    }

    /** Precisely the next `len` bytes, or an error that loses nothing if there are not so many. */
    method ReadExact(len: nat) returns (r: Result<seq<byte>>)
      requires Valid()
      modifies this
      ensures Valid()
      ensures if |old(Ahead())| >= len
              then r == Ok(old(Ahead())[..len]) && Ahead() == old(Ahead())[len..]
              else r.Err? && Ahead() == old(Ahead())
    {
      var ok := Fill(len);
      if !ok {
        assert Flatten(rx) == [];
        return Err;
      }
      hide Flatten;
      ghost var all := Ahead();
      var output := [];
      while |output| < len
        invariant Valid() && |output| <= len && len - |output| <= buffered
        invariant output + Ahead() == all
      {
        if chunks == [] {
          break;
        }
        var part := TakeFront(len - |output|);
        Associate(output, part, Ahead());
        output := output + part;
      }
      assert output == all[..len] && Ahead() == all[len..];
      r := Ok(output);
    }

    method ReadU8() returns (r: Result<byte>)
      requires Valid()
      modifies this
      ensures Valid()
      ensures if old(Ahead()) != []
              then r == Ok(old(Ahead())[0]) && Ahead() == old(Ahead())[1..]
              else r.Err? && Ahead() == []
    {
      var bytes := ReadExact(1);
      r := if bytes.Ok? then Ok(bytes.value[0]) else Err;
    }

    method ReadLenPayload() returns (r: Result<seq<byte>>)
      requires Valid()
      modifies this
      ensures Valid()
      ensures r.Ok? <==> ParseLenPayload(old(Ahead())).Done?
      ensures r.Ok? ==> ParseLenPayload(old(Ahead())).value == r.value
                        && Ahead() == old(Ahead())[ParseLenPayload(old(Ahead())).used..]
    {
      ghost var all := Ahead();
      var bytes := ReadExact(2);
      if bytes.Err? {
        return Err;
      }
      var len := U16(bytes.value[0], bytes.value[1]);
      r := ReadExact(len);
      if r.Ok? {
        assert all[2..][len..] == all[2 + len..];
        assert all[2..][..len] == all[2..2 + len];
      }
    }

    /** `n` octets and a port, after a tag that was read already. */
    method ReadIp(n: nat) returns (r: Result<(seq<byte>, u16)>)
      requires Valid() && (n == 4 || n == 16)
      modifies this
      ensures Valid()
      ensures r.Ok? <==> |old(Ahead())| >= n + 2
      ensures r.Ok? ==>
                && r.value == (old(Ahead())[..n], U16(old(Ahead())[n], old(Ahead())[n + 1]))
                && Ahead() == old(Ahead())[n + 2..]
    {
      var bytes := ReadExact(n + 2);
      if bytes.Err? {
        return Err;
      }
      assert bytes.value[..n] == old(Ahead())[..n];
      r := Ok((bytes.value[..n], U16(bytes.value[n], bytes.value[n + 1])));
    }

    /** A length, a host and a port, after a tag that was read already. */
    method ReadDomain() returns (r: Result<TargetAddr>)
      requires Valid()
      modifies this
      ensures Valid()
      ensures ParseAddr(SOCKS, [0x03] + old(Ahead())).Done? <==> r.Ok?
      ensures r.Ok? ==>
                var Done(target, used) := ParseAddr(SOCKS, [0x03] + old(Ahead()));
                used >= 1 && r.value == target && Ahead() == old(Ahead())[used - 1..]
    {
      ghost var all := Ahead();
      var len := ReadU8();
      if len.Err? {
        return Err;
      }
      var n: nat := len.value;
      var bytes := ReadExact(n + 2);
      if bytes.Err? {
        return Err;
      }
      assert bytes.value[..n] == ([0x03] + all)[2..n + 2];
      if !ValidUtf8(bytes.value[..n]) {
        return Err;
      }
      assert all[1..][n + 2..] == all[n + 3..];
      r := Ok(Domain(bytes.value[..n], U16(bytes.value[n], bytes.value[n + 1])));
    }

    /** `Done` results of a flat parser and the reader's results coincide. */
    ghost predicate Agrees(parsed: Parse<TargetAddr>, r: Result<TargetAddr>, before: seq<byte>)
      requires Valid()
      reads this
    {
      if parsed.Done? then parsed.used <= |before| && r == Ok(parsed.value) && Ahead() == before[parsed.used..] else r.Err?
    }

    method ReadSocksTarget() returns (r: Result<TargetAddr>)
      requires Valid()
      modifies this
      ensures Valid() && Agrees(ParseRequestAddr(old(Ahead())), r, old(Ahead()))
    {
      ghost var all := Ahead();
      var atyp := ReadU8();
      if atyp.Err? {
        return Err;
      }
      if atyp.value == 0x01 {
        var ip := ReadIp(4);
        assert ip.Ok? ==> all[1..][..4] == all[1..5] && all[1..][6..] == all[7..];
        r := if ip.Ok? then Ok(Ip(SocketAddr(V4(ip.value.0), ip.value.1))) else Err;
      } else if atyp.value == 0x02 || atyp.value == 0x03 {
        assert all == [atyp.value] + all[1..];
        r := ReadDomain();
      } else if atyp.value == 0x04 {
        var ip := ReadIp(16);
        assert ip.Ok? ==> all[1..][..16] == all[1..17] && all[1..][18..] == all[19..];
        r := if ip.Ok? then Ok(Ip(SocketAddr(V6(ip.value.0), ip.value.1))) else Err;
      } else {
        r := Err;
      }
    }

    method ReadUotPacketTarget() returns (r: Result<TargetAddr>)
      requires Valid()
      modifies this
      ensures Valid() && Agrees(ParseAddr(UOT_PACKET, old(Ahead())), r, old(Ahead()))
    {
      ghost var all := Ahead();
      var atyp := ReadU8();
      if atyp.Err? {
        return Err;
      }
      if atyp.value == 0x00 {
        var ip := ReadIp(4);
        assert ip.Ok? ==> all[1..][..4] == all[1..5] && all[1..][6..] == all[7..];
        r := if ip.Ok? then Ok(Ip(SocketAddr(V4(ip.value.0), ip.value.1))) else Err;
      } else if atyp.value == 0x01 {
        var ip := ReadIp(16);
        assert ip.Ok? ==> all[1..][..16] == all[1..17] && all[1..][18..] == all[19..];
        r := if ip.Ok? then Ok(Ip(SocketAddr(V6(ip.value.0), ip.value.1))) else Err;
      } else if atyp.value == 0x02 {
        assert all == [0x02] + all[1..];
        DomainTagIsIrrelevant(all[1..]);
        r := ReadDomain();
      } else {
        r := Err;
      }
    }

    method ReadPacket() returns (r: Result<UdpPacket>)
      requires Valid()
      modifies this
      ensures Valid()
      ensures r.Ok? <==> ParseUotPacket(old(Ahead())).Done?
      ensures r.Ok? ==> ParseUotPacket(old(Ahead())).value == r.value
                        && Ahead() == old(Ahead())[ParseUotPacket(old(Ahead())).used..]
    {
      hide ParseAddr, ParseLenPayload;
      ghost var all := Ahead();
      var target := ReadUotPacketTarget();
      if target.Err? {
        return Err;
      }
      var payload := ReadLenPayload();
      if payload.Err? {
        return Err;
      }
      assert ParseUotPacket(all).used <= |all|;
      r := Ok((target.value, payload.value));
    }

    /**
     The request half of `run_uot_packet_stream`: forwards packets until the stream ends or is
     malformed. However the stream was chunked, they are the packets of its flat contents.
     */
    method ForwardPackets() returns (forwarded: seq<UdpPacket>)
      requires Valid()
      modifies this
      ensures forwarded == DecodePackets(old(Ahead()))
    {
      hide ParseUotPacket;
      forwarded := [];
      while true
        invariant Valid()
        invariant forwarded + DecodePackets(Ahead()) == DecodePackets(old(Ahead()))
        decreases |Ahead()|
      {
        ghost var ahead := Ahead();
        var packet := ReadPacket();
        if packet.Err? {
          return;
        }
        assert forwarded + ([packet.value] + DecodePackets(Ahead())) == forwarded + [packet.value] + DecodePackets(Ahead());
        forwarded := forwarded + [packet.value];
      }
    }
  }

  /** Both dialects read a domain alike after their tag. */
  lemma DomainTagIsIrrelevant(rest: seq<byte>)
    ensures ParseAddr(UOT_PACKET, [0x02] + rest) == ParseAddr(SOCKS, [0x03] + rest)
  {
    var a, b := [0x02] + rest, [0x03] + rest;
    assert forall i :: 1 <= i < |a| ==> a[i] == b[i];
    if |rest| >= 1 && (rest[0] as int) + 4 <= |a| {
      assert a[2..rest[0] as int + 2] == b[2..rest[0] as int + 2];
    }
  }

  /** Any packets, encoded, joined and cut up again in any way, are read back exactly. */
  method ReadBack(ps: seq<UdpPacket>, chunking: seq<seq<byte>>) returns (read: seq<UdpPacket>)
    requires Encodable(ps) && Flatten(chunking) == EncodePackets(ps)
    ensures read == ps
  {
    var reader := new ChunkReader(chunking);
    PacketsRoundTrip(ps);
    read := reader.ForwardPackets();
  }

  lemma FlattenAtLeastFirst(chunks: seq<seq<byte>>)
    requires chunks != []
    ensures |Flatten(chunks)| == |chunks[0]| + |Flatten(chunks[1..])|
  {}

  /** Taking bytes off the front chunk takes them off the flat view, whether or not the chunk is used up. */
  lemma AheadSplits(chunks: seq<seq<byte>>, offset: nat, take: nat, later: seq<byte>)
    requires chunks != [] && offset + take <= |chunks[0]|
    ensures var taken := chunks[0][offset..offset + take];
            && |Flatten(chunks)| >= offset + take
            && taken + (Flatten(chunks)[offset + take..] + later) == Flatten(chunks)[offset..] + later
            && (offset + take == |chunks[0]| ==> Flatten(chunks)[offset + take..] == Flatten(chunks[1..]))
  {
    var flat := Flatten(chunks);
    assert flat == chunks[0] + Flatten(chunks[1..]);
    assert flat[offset..offset + take] == chunks[0][offset..offset + take];
    assert flat[offset..] == flat[offset..offset + take] + flat[offset + take..];
  }
}
