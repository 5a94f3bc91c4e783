/** Frames and traffic shaping of src/protocol/anytls/codec.rs. */
module AnytlsFrames {
  import opened Bytes

  const CMD_WASTE: byte := 0
  const CMD_SYN: byte := 1
  const CMD_PSH: byte := 2
  const CMD_FIN: byte := 3
  const CMD_SETTINGS: byte := 4
  const CMD_ALERT: byte := 5
  const CMD_UPDATE_PADDING_SCHEME: byte := 6
  const CMD_SYNACK: byte := 7
  const CMD_HEART_REQUEST: byte := 8
  const CMD_HEART_RESPONSE: byte := 9
  const CMD_SERVER_SETTINGS: byte := 10
  const HEADER_LEN: nat := 7
  const MAX_DATA: nat := 0xFFFF

  datatype Frame = Frame(command: byte, streamId: u32, data: seq<byte>)

  predicate Sendable(f: Frame) {
    |f.data| <= MAX_DATA
  }

  function Header(f: Frame): (r: seq<byte>)
    requires Sendable(f)
    ensures |r| == HEADER_LEN
  {
    [f.command] + Be32(f.streamId) + Be16(|f.data|)
  }

  function EncodeFrame(f: Frame): (r: Result<seq<byte>>) {
    if Sendable(f) then Ok(Header(f) + f.data) else Err
  }

  /** `read_frame` on the bytes that have arrived so far. */
  function ReadFrame(stream: seq<byte>): (r: Parse<Frame>)
    ensures r.Done? ==> HEADER_LEN <= r.used <= |stream| && Sendable(r.value)
  {
    if |stream| < HEADER_LEN then NeedMore
    else
      var len: nat := U16(stream[5], stream[6]);
      if |stream| < HEADER_LEN + len then NeedMore
      else Done(Frame(stream[0], U32(stream[1], stream[2], stream[3], stream[4]), stream[7..7 + len]), HEADER_LEN + len)
  }

  lemma ReadEncoded(f: Frame, rest: seq<byte>)
    requires Sendable(f)
    ensures ReadFrame(EncodeFrame(f).value + rest) == Done(f, |EncodeFrame(f).value|)
  {
    var stream := EncodeFrame(f).value + rest;
    Be16RoundTrip(|f.data|);
    Be32RoundTrip(f.streamId);
    assert stream[7..7 + |f.data|] == f.data;
  }

  /** All complete frames of a stream, and the bytes after the last of them. */
  function DecodeFrames(stream: seq<byte>): (r: (seq<Frame>, seq<byte>))
    decreases |stream|
  {
    match ReadFrame(stream)
    case Done(f, used) =>
      var (fs, rest) := DecodeFrames(stream[used..]);
      ([f] + fs, rest)
    case NeedMore => ([], stream)
    case Invalid => ([], stream)
  }

  predicate AllSendable(fs: seq<Frame>) {
    forall i :: 0 <= i < |fs| ==> Sendable(fs[i])
  }

  function EncodeFrames(fs: seq<Frame>): (r: seq<byte>)
    requires AllSendable(fs)
  {
    if fs == [] then [] else EncodeFrame(fs[0]).value + EncodeFrames(fs[1..])
  }

  lemma {:induction false} EncodeAppend(a: seq<Frame>, b: seq<Frame>)
    requires AllSendable(a) && AllSendable(b)
    ensures EncodeFrames(a + b) == EncodeFrames(a) + EncodeFrames(b)
  {
    if a == [] {
      assert a + b == b;
    } else {
      assert (a + b)[1..] == a[1..] + b;
      EncodeAppend(a[1..], b);
    }
  }

  lemma EncodeOne(f: Frame)
    requires Sendable(f)
    ensures EncodeFrames([f]) == EncodeFrame(f).value
  {
    assert [f][1..] == [];
    assert EncodeFrames([f]) == EncodeFrame(f).value + EncodeFrames([f][1..]);
  }

  /** A concatenation of frames decodes to exactly those frames, with nothing left over. */
  lemma {:induction false} DecodeEncoded(fs: seq<Frame>)
    requires AllSendable(fs)
    ensures DecodeFrames(EncodeFrames(fs)) == (fs, [])
  {
    if fs != [] {
      var first, rest := EncodeFrame(fs[0]).value, EncodeFrames(fs[1..]);
      ReadEncoded(fs[0], rest);
      assert EncodeFrames(fs) == first + rest;
      assert (first + rest)[|first|..] == rest;
      DecodeEncoded(fs[1..]);
      assert [fs[0]] + fs[1..] == fs;
    }
  }

  function NonWaste(fs: seq<Frame>): (r: seq<Frame>) {
    if fs == [] then []
    else if fs[0].command == CMD_WASTE then NonWaste(fs[1..])
    else [fs[0]] + NonWaste(fs[1..])
  }

  lemma {:induction false} NonWasteAppend(a: seq<Frame>, b: seq<Frame>)
    ensures NonWaste(a + b) == NonWaste(a) + NonWaste(b)
  {
    if a == [] {
      assert a + b == b;
    } else {
      assert (a + b)[1..] == a[1..] + b;
      NonWasteAppend(a[1..], b);
    }
  }

  // Shaping

  datatype PadStep = Size(n: nat) | Check

  function WasteFrame(n: nat): (f: Frame)
    ensures |f.data| == n && AllWaste([f])
  {
    Frame(CMD_WASTE, 0, seq(n, _ => 0))
  }

  function EncodeWaste(n: nat): (r: Result<seq<byte>>) {
    EncodeFrame(WasteFrame(n))
  }

  /** Room left by `remaining` bytes and a waste header in a record of `n` bytes. */
  function PadLen(n: nat, remaining: nat): nat {
    if n > remaining + HEADER_LEN then n - (remaining + HEADER_LEN) else 0
  }

  /** One `Size` step: the record it emits and the payload that remains. */
  function Cut(payload: seq<byte>, n: nat): (r: Result<(seq<byte>, seq<byte>)>) {
    if |payload| > n then Ok((payload[..n], payload[n..]))
    else
      var pad := if payload == [] then n else PadLen(n, |payload|);
      if payload != [] && pad == 0 then Ok((payload, []))
      else
        var waste :- EncodeWaste(pad);
        Ok((payload + waste, []))
  }

  /** The records for a payload, after `records`. A checkpoint ends the packet once the payload is used up. */
  function Shape(payload: seq<byte>, steps: seq<PadStep>, records: seq<seq<byte>>): (r: Result<seq<seq<byte>>>)
    decreases |steps|
  {
    if steps == [] then Ok(if payload == [] then records else records + [payload])
    else
      match steps[0]
      case Check => if payload == [] then Ok(records) else Shape(payload, steps[1..], records)
      case Size(n) =>
        var (record, rest) :- Cut(payload, n);
        Shape(rest, steps[1..], records + [record])
  }

  function ShapedPayload(payload: seq<byte>, steps: seq<PadStep>): (r: Result<seq<seq<byte>>>) {
    if steps == [] then Ok([payload]) else Shape(payload, steps, [])
  }

  method ShapePacketPayload(data: seq<byte>, steps: seq<PadStep>) returns (r: Result<seq<seq<byte>>>)
    ensures r == ShapedPayload(data, steps)
  {
    if steps == [] {
      return Ok([data]);
    }
    var payload, records, i := data, [], 0;
    assert steps[0..] == steps;
    while i < |steps|
      invariant 0 <= i <= |steps|
      invariant Shape(data, steps, []) == Shape(payload, steps[i..], records)
    {
      assert steps[i..][0] == steps[i] && steps[i..][1..] == steps[i + 1..];
      var remaining := |payload|;
      match steps[i] {
        case Check =>
          if remaining == 0 {
            return Ok(records);
          }
        case Size(n) =>
          if remaining > n {
            records := records + [payload[..n]];
            payload := payload[n..];
          } else if remaining > 0 {
            var record := payload;
            payload := [];
            var pad := PadLen(n, remaining);
            if pad > 0 {
              var waste := EncodeWaste(pad);
              if waste.Err? {
                return Err;
              }
              record := record + waste.value;
            }
            records := records + [record];
          } else {
            var waste := EncodeWaste(n);
            if waste.Err? {
              return Err;
            }
            assert payload + waste.value == waste.value;
            records := records + [waste.value];
          }
      }
      i := i + 1;
    }
    assert steps[i..] == [];
    if payload != [] {
      records := records + [payload];
    }
    r := Ok(records);
  }

  /** The size a record is shaped to: the step's size if padding or cutting can reach it, and 7 more if it is padding only. */
  lemma RecordLength(payload: seq<byte>, n: nat)
    requires Cut(payload, n).Ok?
    ensures |Cut(payload, n).value.0| ==
            if payload == [] then n + HEADER_LEN
            else if |payload| > n || n > |payload| + HEADER_LEN then n
            else |payload|
  {}

  // How many records, and how long

  /** The sizes of the steps, added up. */
  function Total(steps: seq<PadStep>): (n: nat) {
    if steps == [] then 0
    else
      var last := steps[|steps| - 1];
      Total(steps[..|steps| - 1]) + if last.Size? then last.n else 0
  }

  function SizeSteps(steps: seq<PadStep>): (n: nat)
    ensures n <= |steps|
  {
    if steps == [] then 0 else SizeSteps(steps[..|steps| - 1]) + if steps[|steps| - 1].Size? then 1 else 0
  }

  /** A checkpoint that a payload of `len` bytes does not get past. */
  predicate Halts(len: nat, steps: seq<PadStep>, k: nat) {
    k < |steps| && steps[k].Check? && Total(steps[..k]) >= len
  }

  /** Where shaping stops: at the first such checkpoint, or at the end. */
  ghost predicate StopsAt(len: nat, steps: seq<PadStep>, k: nat) {
    (k == |steps| || Halts(len, steps, k)) && forall j :: 0 <= j < k ==> !Halts(len, steps, j)
  }

  function Left(len: nat, used: nat): nat {
    if len > used then len - used else 0
  }

  /** The length of the record for a step of size `n` when `left` bytes of payload remain. */
  function RecordSize(left: nat, n: nat): nat {
    if left == 0 then n + HEADER_LEN
    else if left > n || n > left + HEADER_LEN then n
    else left
  }

  /** The record of step `i` has the size that the payload left by the earlier steps allows. */
  predicate SizedBy(len: nat, steps: seq<PadStep>, records: seq<seq<byte>>, i: nat)
    requires i < |steps|
  {
    steps[i].Size? ==>
      && SizeSteps(steps[..i]) < |records|
      && |records[SizeSteps(steps[..i])]| == RecordSize(Left(len, Total(steps[..i])), steps[i].n)
  }

  /** After `i` steps without a stop: one record for each size so far, and the payload less their total. */
  ghost predicate Progress(len: nat, steps: seq<PadStep>, i: nat, payload: seq<byte>, records: seq<seq<byte>>) {
    && i <= |steps| && |payload| == Left(len, Total(steps[..i])) && |records| == SizeSteps(steps[..i])
    && forall j :: 0 <= j < i ==> SizedBy(len, steps, records, j)
  }

  lemma OneMoreStep(steps: seq<PadStep>, i: nat)
    requires i < |steps|
    ensures Total(steps[..i + 1]) == Total(steps[..i]) + if steps[i].Size? then steps[i].n else 0
    ensures SizeSteps(steps[..i + 1]) == SizeSteps(steps[..i]) + if steps[i].Size? then 1 else 0
  {
    assert steps[..i + 1][..i] == steps[..i];
  }

  lemma ProgressStep(len: nat, steps: seq<PadStep>, i: nat, payload: seq<byte>, records: seq<seq<byte>>)
    requires i < |steps| && steps[i].Size? && Progress(len, steps, i, payload, records) && Cut(payload, steps[i].n).Ok?
    ensures Progress(len, steps, i + 1, Cut(payload, steps[i].n).value.1, records + [Cut(payload, steps[i].n).value.0])
  {
    var (record, rest) := Cut(payload, steps[i].n).value;
    OneMoreStep(steps, i);
    RecordLength(payload, steps[i].n);
    assert |rest| == Left(|payload|, steps[i].n);
    hide Cut;
    forall j | 0 <= j < i + 1 ensures SizedBy(len, steps, records + [record], j) {
      if j < i {
        assert SizedBy(len, steps, records, j);
      }
    }
  }

  lemma ProgressPastCheck(len: nat, steps: seq<PadStep>, i: nat, payload: seq<byte>, records: seq<seq<byte>>)
    requires i < |steps| && steps[i].Check? && Progress(len, steps, i, payload, records)
    ensures Progress(len, steps, i + 1, payload, records)
  {
    OneMoreStep(steps, i);
  }

  lemma {:induction false} ShapeFrom(len: nat, steps: seq<PadStep>, i: nat, k: nat, payload: seq<byte>, records: seq<seq<byte>>)
    requires StopsAt(len, steps, k) && i <= k && Progress(len, steps, i, payload, records)
    requires Shape(payload, steps[i..], records).Ok?
    ensures Shaped(len, steps, k, Shape(payload, steps[i..], records).value)
    decreases |steps| - i
  {
    if i < |steps| {
      assert steps[i..][0] == steps[i] && steps[i..][1..] == steps[i + 1..];
      if steps[i].Check? {
        if i < k {
          assert !Halts(len, steps, i);
          ProgressPastCheck(len, steps, i, payload, records);
          ShapeFrom(len, steps, i + 1, k, payload, records);
        }
      } else {
        assert i < k;
        ProgressStep(len, steps, i, payload, records);
        hide Cut;
        ShapeFrom(len, steps, i + 1, k, Cut(payload, steps[i].n).value.1, records + [Cut(payload, steps[i].n).value.0]);
      }
    } else {
      forall j | 0 <= j < i && payload != [] ensures SizedBy(len, steps, records + [payload], j) {
        assert SizedBy(len, steps, records, j);
      }
    }
  }

  /** One record for each size before the stop, of the size it allows, and one for any payload that is left then. */
  ghost predicate Shaped(len: nat, steps: seq<PadStep>, k: nat, records: seq<seq<byte>>)
    requires k <= |steps|
  {
    var left := Left(len, Total(steps[..k]));
    && |records| == SizeSteps(steps[..k]) + (if left > 0 then 1 else 0)
    && (left > 0 ==> |records[|records| - 1]| == left)
    && forall i :: 0 <= i < k ==> SizedBy(len, steps, records, i)
  }

  /**
   Shaping by its steps: it stops at the first checkpoint by which the sizes have used up the payload,
   and later steps do not matter; up to there each size gives one record, as long as it can be made.
   */
  lemma RecordsFollowSteps(payload: seq<byte>, steps: seq<PadStep>, k: nat)
    requires steps != [] && k <= |steps| && StopsAt(|payload|, steps, k) && ShapedPayload(payload, steps).Ok?
    ensures Shaped(|payload|, steps, k, ShapedPayload(payload, steps).value)
  {
    assert steps[..0] == [] && steps[0..] == steps;
    ShapeFrom(|payload|, steps, 0, k, payload, []);
  }

  /** The waste that fills a record of size `n` when `left` bytes of payload remain fits a frame. */
  predicate Payable(left: nat, n: nat) {
    if left == 0 then n <= MAX_DATA else n <= left + HEADER_LEN + MAX_DATA
  }

  lemma {:induction false} FailsFrom(len: nat, steps: seq<PadStep>, i: nat, k: nat, payload: seq<byte>, records: seq<seq<byte>>)
    requires StopsAt(len, steps, k) && i <= k && Progress(len, steps, i, payload, records)
    ensures Shape(payload, steps[i..], records).Ok? <==>
            forall j :: i <= j < k && steps[j].Size? ==> Payable(Left(len, Total(steps[..j])), steps[j].n)
    decreases |steps| - i
  {
    if i < |steps| {
      assert steps[i..][0] == steps[i] && steps[i..][1..] == steps[i + 1..];
      if steps[i].Check? {
        if i < k {
          assert !Halts(len, steps, i);
          ProgressPastCheck(len, steps, i, payload, records);
          FailsFrom(len, steps, i + 1, k, payload, records);
        }
      } else {
        assert i < k;
        assert Cut(payload, steps[i].n).Ok? <==> Payable(|payload|, steps[i].n);
        hide Cut, Payable;
        if Cut(payload, steps[i].n).Ok? {
          ProgressStep(len, steps, i, payload, records);
          FailsFrom(len, steps, i + 1, k, Cut(payload, steps[i].n).value.1, records + [Cut(payload, steps[i].n).value.0]);
        }
      }
    }
  }

  /** Shaping fails exactly when some size before the stop asks for more waste than a frame can hold. */
  lemma ShapeFailsExactlyWhen(payload: seq<byte>, steps: seq<PadStep>, k: nat)
    requires steps != [] && k <= |steps| && StopsAt(|payload|, steps, k)
    ensures ShapedPayload(payload, steps).Ok? <==>
            forall j :: 0 <= j < k && steps[j].Size? ==> Payable(Left(|payload|, Total(steps[..j])), steps[j].n)
  {
    assert steps[..0] == [] && steps[0..] == steps;
    FailsFrom(|payload|, steps, 0, k, payload, []);
  }

  function Lengths(records: seq<seq<byte>>): (r: seq<nat>)
    ensures |r| == |records|
  {
    seq(|records|, i requires 0 <= i < |records| => |records[i]|)
  }

  lemma CutHidesContent(a: seq<byte>, b: seq<byte>, n: nat)
    requires |a| == |b|
    ensures Cut(a, n).Ok? <==> Cut(b, n).Ok?
    ensures Cut(a, n).Ok? ==> |Cut(a, n).value.0| == |Cut(b, n).value.0| && |Cut(a, n).value.1| == |Cut(b, n).value.1|
  {}

  /** Shaping looks at lengths only: the record sizes an observer sees depend on nothing else of the payload. */
  lemma {:induction false} ShapeHidesContent(a: seq<byte>, b: seq<byte>, steps: seq<PadStep>,
                                             before: seq<seq<byte>>, other: seq<seq<byte>>)
    requires |a| == |b| && Lengths(before) == Lengths(other)
    ensures Shape(a, steps, before).Ok? <==> Shape(b, steps, other).Ok?
    ensures Shape(a, steps, before).Ok? ==> Lengths(Shape(a, steps, before).value) == Lengths(Shape(b, steps, other).value)
    decreases |steps|
  {
    hide Cut;
    assert |before| == |other|;
    if steps == [] {
      assert Lengths(before + [a]) == Lengths(before) + [|a|] == Lengths(other + [b]);
    } else if steps[0].Check? {
      ShapeHidesContent(a, b, steps[1..], before, other);
    } else {
      CutHidesContent(a, b, steps[0].n);
      if Cut(a, steps[0].n).Ok? {
        var (r, rest) := Cut(a, steps[0].n).value;
        var (r', rest') := Cut(b, steps[0].n).value;
        assert Lengths(before + [r]) == Lengths(before) + [|r|] == Lengths(other + [r']);
        ShapeHidesContent(rest, rest', steps[1..], before + [r], other + [r']);
      }
    }
  }

  /** Sizes that fit a frame can always be met. */
  lemma {:induction false} ShapeSucceeds(payload: seq<byte>, steps: seq<PadStep>, records: seq<seq<byte>>)
    requires forall i :: 0 <= i < |steps| && steps[i].Size? ==> steps[i].n <= MAX_DATA
    ensures Shape(payload, steps, records).Ok?
    decreases |steps|
  {
    if steps != [] && (steps[0].Size? || payload != []) {
      var (record, rest) := if steps[0].Size? then Cut(payload, steps[0].n).value else ([], payload);
      ShapeSucceeds(rest, steps[1..], if steps[0].Size? then records + [record] else records);
    }
  }

  predicate AllWaste(fs: seq<Frame>) {
    forall i :: 0 <= i < |fs| ==> fs[i].command == CMD_WASTE && fs[i].streamId == 0 && forall k :: 0 <= k < |fs[i].data| ==> fs[i].data[k] == 0
  }

  /** A record carries payload only, unless it uses the payload up: then whole waste frames may follow. */
  lemma CutIsTransparent(payload: seq<byte>, n: nat) returns (waste: seq<Frame>)
    requires Cut(payload, n).Ok?
    ensures AllSendable(waste) && AllWaste(waste)
    ensures var (record, rest) := Cut(payload, n).value;
            if rest != [] then waste == [] && record + rest == payload else record == payload + EncodeFrames(waste)
  {
    waste := [];
    if |payload| <= n {
      var pad := if payload == [] then n else PadLen(n, |payload|);
      if payload == [] || pad > 0 {
        waste := [WasteFrame(pad)];
        EncodeOne(WasteFrame(pad));
      } else {
        assert payload + [] == payload;
      }
    }
  }

  /** The records, joined, are the payload followed by whole waste frames and nothing else. */
  lemma {:induction false} ShapeIsTransparent(payload: seq<byte>, steps: seq<PadStep>, records: seq<seq<byte>>)
    returns (waste: seq<Frame>)
    requires Shape(payload, steps, records).Ok?
    ensures AllSendable(waste) && AllWaste(waste)
    ensures Flatten(Shape(payload, steps, records).value) == Flatten(records) + payload + EncodeFrames(waste)
    decreases |steps|
  {
    hide Cut;
    waste := [];
    if steps == [] {
      FlattenSnoc(records, payload);
    } else if steps[0].Check? {
      if payload != [] {
        waste := ShapeIsTransparent(payload, steps[1..], records);
      }
    } else {
      var (record, rest) := Cut(payload, steps[0].n).value;
      var first := CutIsTransparent(payload, steps[0].n);
      var later := ShapeIsTransparent(rest, steps[1..], records + [record]);
      FlattenSnoc(records, record);
      waste := first + later;
      EncodeAppend(first, later);
      Regroup(Flatten(records), record, rest, payload, EncodeFrames(first), EncodeFrames(later));
    }
  }

  lemma Regroup(done: seq<byte>, record: seq<byte>, rest: seq<byte>, payload: seq<byte>, first: seq<byte>, later: seq<byte>)
    requires if rest != [] then first == [] && record + rest == payload else record == payload + first
    ensures done + record + rest + later == done + payload + (first + later)
  {
    if rest != [] {
      assert done + record + rest == done + (record + rest);
    }
  }
}

/**
 The shaping writer of src/protocol/anytls/outbound.rs. Frames may be buffered to travel
 with the next written frame; the first packets of a connection are cut and padded by a
 plan that may change from call to call.
 */
module AnytlsWriter {
  import opened Bytes
  import opened AnytlsFrames

  /** `steps` are the sizes generated for a packet number; they may be anything. */
  datatype Plan = Plan(stop: u32, steps: u32 -> seq<PadStep>)

  /** A packet is written shaped by its steps, failing exactly when they cannot be met, or as it is. */
  ghost predicate AsPlanned(shaping: bool, packet: seq<byte>, steps: seq<PadStep>, before: seq<byte>, after: seq<byte>, ok: bool) {
    if shaping then
      var shaped := ShapedPayload(packet, steps);
      (ok <==> shaped.Ok?) && after == before + if ok then Flatten(shaped.value) else []
    else ok && after == before + packet
  }

  /** The next packet is still one of those the plan shapes. */
  predicate ShapesNext(on: bool, counter: u32, stop: u32) {
    on && (counter + 1) % 0x1_0000_0000 < stop
  }

  class ClientWriter {
    var buffer: seq<byte>
    var packetCounter: u32
    var sendPadding: bool
    /** Everything written to the connection. */
    var wire: seq<byte>
    /** Frames submitted so far, frames on the wire, and frames in the buffer. */
    ghost var submitted: seq<Frame>
    ghost var emitted: seq<Frame>
    ghost var held: seq<Frame>

    ghost predicate Valid()
      reads this
    {
      && AllSendable(emitted) && AllSendable(held)
      && wire == EncodeFrames(emitted)
      && buffer == EncodeFrames(held)
      && NonWaste(emitted) + NonWaste(held) == NonWaste(submitted)
    }

    constructor (settings: Frame)
      requires Sendable(settings)
      ensures Valid() && submitted == [settings] && wire == []
    {
      buffer, packetCounter, sendPadding, wire := EncodeFrame(settings).value, 0, true, [];
      submitted, emitted, held := [settings], [], [settings];
      EncodeOne(settings);
    }

    method BufferFrame(f: Frame) returns (ok: bool)
      requires Valid()
      modifies this`buffer, this`submitted, this`held
      ensures Valid() && (ok <==> Sendable(f))
      ensures submitted == if ok then old(submitted) + [f] else old(submitted)
    {
      var encoded := EncodeFrame(f);
      if encoded.Err? {
        return false;
      }
      hide EncodeFrames, NonWaste, EncodeFrame, AllSendable;
      HeldBack(emitted, held, submitted, f);
      buffer := buffer + encoded.value;
      held, submitted := held + [f], submitted + [f];
      ok := true;
    }

    predicate Shaping(plan: Plan)
      reads this`sendPadding, this`packetCounter
    {
      ShapesNext(sendPadding, packetCounter, plan.stop)
    }

    /** Sends the buffer and `data` as one packet, shaped if shaping is still on. */
    method WriteConn(data: seq<byte>, plan: Plan) returns (ok: bool, ghost waste: seq<Frame>)
      modifies this`buffer, this`packetCounter, this`sendPadding, this`wire
      ensures AllSendable(waste) && AllWaste(waste) && buffer == []
      ensures wire == if ok then old(wire) + (old(buffer) + data + EncodeFrames(waste)) else old(wire)
      ensures old(wire) <= wire
      ensures packetCounter == (if old(sendPadding) then (old(packetCounter) + 1) % 0x1_0000_0000 else old(packetCounter))
      ensures sendPadding == old(Shaping(plan))
      ensures AsPlanned(old(Shaping(plan)), old(buffer) + data, plan.steps(packetCounter), old(wire), wire, ok)
    {
      hide EncodeFrames, ShapedPayload, Flatten;
      var packet := buffer + data;
      buffer, waste := [], [];
      if sendPadding {
        packetCounter := (packetCounter + 1) % 0x1_0000_0000;
        if packetCounter < plan.stop {
          var records := ShapePacketPayload(packet, plan.steps(packetCounter));
          if records.Err? {
            return false, [];
          }
          waste := ShapedIsTransparent(packet, plan.steps(packetCounter));
          WriteAll(records.value);
          return true, waste;
        }
        sendPadding := false;
      }
      NoFrames();
      assert packet + [] == packet;
      wire := wire + packet;
      ok := true;
    }

    /** Writes the buffered frames and `f` as one packet. A write the plan cannot shape fails and ends the session. */
    method WriteFrame(f: Frame, plan: Plan) returns (ok: bool)
      requires Valid()
      modifies this
      ensures ok ==> Valid() && submitted == old(submitted) + [f] && buffer == []
      ensures !Sendable(f) ==> !ok && Valid() && submitted == old(submitted) && wire == old(wire)
      ensures Sendable(f) ==>
                AsPlanned(old(Shaping(plan)), old(buffer) + EncodeFrame(f).value, plan.steps(packetCounter), old(wire), wire, ok)
      ensures old(wire) <= wire
    {
      var encoded := EncodeFrame(f);
      if encoded.Err? {
        return false;
      }
      hide EncodeFrames, NonWaste, EncodeFrame, AllSendable, AllWaste, AsPlanned;
      ghost var waste;
      ok, waste := WriteConn(encoded.value, plan);
      if ok {
        Booked(emitted, held, submitted, f, waste);
        emitted, held, submitted := emitted + (held + [f]) + waste, [], submitted + [f];
      }
    }

    method WriteAll(records: seq<seq<byte>>)
      modifies this`wire
      ensures wire == old(wire) + Flatten(records)
    {
      var i := 0;
      assert records[0..] == records;
      while i < |records|
        invariant 0 <= i <= |records|
        invariant wire + Flatten(records[i..]) == old(wire) + Flatten(records)
      {
        assert records[i..][1..] == records[i + 1..];
        wire := wire + records[i];
        i := i + 1;
      }
    }
  }

  /** Whether padding is still on, and the packet counter, after `n` packets under one plan. */
  function AfterPackets(stop: u32, n: nat): (r: (bool, u32)) {
    if n == 0 then (true, 0)
    else
      var (on, counter) := AfterPackets(stop, n - 1);
      if !on then (false, counter) else (ShapesNext(on, counter, stop), (counter + 1) % 0x1_0000_0000)
  }

  /** Under one plan exactly the packets numbered 1 to `stop - 1` are shaped, each by the steps of its own number. */
  lemma {:induction false} ShapedUntilStop(stop: u32, n: nat)
    ensures var (on, counter) := AfterPackets(stop, n);
            && (on <==> n == 0 || n < stop)
            && (ShapesNext(on, counter, stop) <==> n + 1 < stop)
            && (n < stop ==> counter == n)
  {
    if n > 0 {
      ShapedUntilStop(stop, n - 1);
    }
  }

  lemma HeldBack(emitted: seq<Frame>, held: seq<Frame>, submitted: seq<Frame>, f: Frame)
    requires AllSendable(held) && Sendable(f) && NonWaste(emitted) + NonWaste(held) == NonWaste(submitted)
    ensures AllSendable(held + [f]) && EncodeFrames(held + [f]) == EncodeFrames(held) + EncodeFrame(f).value
    ensures NonWaste(emitted) + NonWaste(held + [f]) == NonWaste(submitted + [f])
  {
    hide EncodeFrames, NonWaste, EncodeFrame;
    EncodeAppend(held, [f]);
    EncodeOne(f);
    NonWasteAppend(held, [f]);
    NonWasteAppend(submitted, [f]);
    Associate(NonWaste(emitted), NonWaste(held), NonWaste([f]));
  }

  /** A packet that reached the wire, with the waste that follows it, extends what was emitted by what was submitted. */
  lemma Booked(emitted: seq<Frame>, held: seq<Frame>, submitted: seq<Frame>, f: Frame, waste: seq<Frame>)
    requires AllSendable(emitted) && AllSendable(held) && Sendable(f) && AllSendable(waste) && AllWaste(waste)
    requires NonWaste(emitted) + NonWaste(held) == NonWaste(submitted)
    ensures EncodeFrames(emitted + (held + [f]) + waste)
         == EncodeFrames(emitted) + (EncodeFrames(held) + EncodeFrame(f).value + EncodeFrames(waste))
    ensures NonWaste(emitted + (held + [f]) + waste) + NonWaste([]) == NonWaste(submitted + [f])
    ensures AllSendable(emitted + (held + [f]) + waste) && AllSendable([]) && EncodeFrames([]) == []
  {
    NoFrames();
    hide EncodeFrames, NonWaste, EncodeFrame;
    EncodeAppend(held, [f]);
    EncodeOne(f);
    EncodeAppend(emitted, held + [f]);
    EncodeAppend(emitted + (held + [f]), waste);
    NonWasteAppend(held, [f]);
    NonWasteAppend(emitted, held + [f]);
    NonWasteAppend(emitted + (held + [f]), waste);
    NonWasteAppend(submitted, [f]);
    WasteVanishes(waste);
    WasteVanishes([]);
    Associate(NonWaste(emitted), NonWaste(held), NonWaste([f]));
  }

  lemma NoFrames()
    ensures EncodeFrames([]) == []
  {}

  lemma ShapedIsTransparent(payload: seq<byte>, steps: seq<PadStep>) returns (waste: seq<Frame>)
    requires ShapedPayload(payload, steps).Ok?
    ensures AllSendable(waste) && AllWaste(waste)
    ensures Flatten(ShapedPayload(payload, steps).value) == payload + EncodeFrames(waste)
  {
    if steps == [] {
      waste := [];
      FlattenSingle(payload);
    } else {
      waste := ShapeIsTransparent(payload, steps, []);
    }
  }

  lemma {:induction false} WasteVanishes(fs: seq<Frame>)
    requires AllWaste(fs)
    ensures NonWaste(fs) == []
  {
    if fs != [] {
      WasteVanishes(fs[1..]);
    }
  }

  /**
   Padding is transparent: in every state reached by successful calls, under any plans, the wire
   is a whole number of frames, and dropping waste from it leaves, followed by what is buffered,
   exactly the submitted frames in order.
   */
  lemma PaddingIsTransparent(w: ClientWriter)
    requires w.Valid()
    ensures DecodeFrames(w.wire).1 == [] && DecodeFrames(w.buffer).1 == []
    ensures NonWaste(DecodeFrames(w.wire).0) + NonWaste(DecodeFrames(w.buffer).0) == NonWaste(w.submitted)
  {
    DecodeEncoded(w.emitted);
    DecodeEncoded(w.held);
  }
}
