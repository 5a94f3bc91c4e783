/** Totals over the entries of a map. */
module MapTotals {

  ghost function Total<V>(m: map<nat, V>, size: V -> nat): (t: nat) {
    if m == map[] then 0
    else
      var k :| k in m;
      size(m[k]) + Total(m - {k}, size)
  }

  lemma {:induction false} TotalPick<V>(m: map<nat, V>, size: V -> nat, k: nat)
    requires k in m
    ensures Total(m, size) == size(m[k]) + Total(m - {k}, size)
    decreases |m|
  {
    var j :| j in m && Total(m, size) == size(m[j]) + Total(m - {j}, size);
    if j != k {
      TotalPick(m - {j}, size, k);
      TotalPick(m - {k}, size, j);
      assert m - {j} - {k} == m - {k} - {j};
    }
  }

  /** Setting one entry changes the total by that entry alone. */
  lemma TotalSet<V>(m: map<nat, V>, size: V -> nat, k: nat, v: V)
    ensures Total(m[k := v], size) == Total(m, size) + size(v) - (if k in m then size(m[k]) else 0)
    ensures |m[k := v]| == |m| + (if k in m then 0 else 1)
  {
    hide Total;
    TotalPick(m[k := v], size, k);
    assert m[k := v] - {k} == m - {k};
    if k in m {
      TotalPick(m, size, k);
      assert m[k := v].Keys == m.Keys;
    } else {
      assert m - {k} == m;
      assert m[k := v].Keys == m.Keys + {k};
    }
  }

  lemma TotalRemove<V>(m: map<nat, V>, size: V -> nat, k: nat)
    requires k in m
    ensures Total(m - {k}, size) == Total(m, size) - size(m[k])
    ensures |m - {k}| == |m| - 1
  {
    hide Total;
    TotalPick(m, size, k);
    assert (m - {k}).Keys == m.Keys - {k};
  }
}

/**
 One client stream of src/protocol/tuic/inbound.rs.

 Before authentication its chunks are only retained; afterwards each chunk either
 goes to the relay or extends an unfinished CONNECT header. `Settled` says what the
 server must hold for a stream given all it has heard of it, whenever it was heard.
 */
module TuicStream {
  import opened Bytes
  import opened Addresses
  import opened TuicCodec

  /** All that was heard of a stream, or what is retained of it. */
  datatype Stream = Stream(data: seq<byte>, fin: bool)

  /** What the relay task gets: its target, the bytes after the header, and the end of the stream. */
  datatype Relay = Relay(target: TargetAddr, data: seq<byte>, closed: bool)

  /** The server's state for one stream id. */
  datatype View = View(pending: Option<Stream>, open: bool, relay: Option<Relay>)

  const UNHEARD := Stream([], false)
  const NOTHING := View(None, false, None)

  function Join(h: Stream, data: seq<byte>, fin: bool): (r: Stream) {
    Stream(h.data + data, h.fin || fin)
  }

  /** `handle_stream_data` once authenticated, the relay's channel having room. */
  function LiveData(v: View, data: seq<byte>, fin: bool): (r: Result<View>) {
    if v.open && v.relay.Some? then
      var relay := v.relay.value;
      Ok(View(v.pending, !fin, Some(Relay(relay.target, relay.data + data, relay.closed || fin))))
    else
      var p := Join(if v.pending.Some? then v.pending.value else UNHEARD, data, fin);
      match TryParseConnect(p.data)
      case Done(target, used) => Ok(View(None, !p.fin, Some(Relay(target, p.data[used..], p.fin))))
      case NeedMore => if p.fin then Err else Ok(View(Some(p), false, v.relay))
      case Invalid => Err
  }

  /** The state owed to a stream of which `h` was heard. */
  predicate Settled(v: View, h: Stream) {
    match TryParseConnect(h.data)
    case Done(target, used) => v == View(None, !h.fin, Some(Relay(target, h.data[used..], h.fin)))
    case NeedMore => !h.fin && (v == View(Some(h), false, None) || (v == NOTHING && h.data == []))
    case Invalid => false
  }

  /** A stream the server can go on serving: its header is complete, or may still be completed. */
  predicate Acceptable(h: Stream) {
    match TryParseConnect(h.data)
    case Done(_, _) => true
    case NeedMore => !h.fin
    case Invalid => false
  }

  /** A chunk is accepted exactly when everything heard so far is acceptable, and then the state is the one owed. */
  lemma LiveDataSettles(v: View, h: Stream, data: seq<byte>, fin: bool)
    requires Settled(v, h) && !h.fin
    ensures LiveData(v, data, fin).Ok? <==> Acceptable(Join(h, data, fin))
    ensures LiveData(v, data, fin).Ok? ==> Settled(LiveData(v, data, fin).value, Join(h, data, fin))
  {
    var parsed := TryParseConnect(h.data);
    if parsed.Done? {
      ConnectStable(h.data, data);
      assert (h.data + data)[parsed.used..] == h.data[parsed.used..] + data;
    } else {
      hide TryParseConnect;
      assert v.pending.None? ==> h == UNHEARD;
    }
  }

  datatype Chunk = Chunk(data: seq<byte>, fin: bool)

  function JoinAll(h: Stream, chunks: seq<Chunk>): (r: Stream)
    decreases |chunks|
  {
    if chunks == [] then h else JoinAll(Join(h, chunks[0].data, chunks[0].fin), chunks[1..])
  }

  /** QUIC delivers nothing after the FIN. */
  predicate FinLast(chunks: seq<Chunk>) {
    forall i :: 0 <= i < |chunks| - 1 ==> !chunks[i].fin
  }

  function Feed(v: View, chunks: seq<Chunk>): (r: Result<View>)
    decreases |chunks|
  {
    if chunks == [] then Ok(v)
    else
      var v' :- LiveData(v, chunks[0].data, chunks[0].fin);
      Feed(v', chunks[1..])
  }

  /** The stream's history when authentication succeeds after `split` chunks: those are retained, then replayed at once. */
  function Deferred(chunks: seq<Chunk>, split: nat): (r: Result<View>)
    requires split <= |chunks|
  {
    var retained := JoinAll(UNHEARD, chunks[..split]);
    if retained.data == [] then Feed(NOTHING, chunks[split..])
    else
      var v :- LiveData(NOTHING, retained.data, retained.fin);
      Feed(v, chunks[split..])
  }

  lemma {:induction false} RejectedStaysRejected(h: Stream, chunks: seq<Chunk>)
    requires !Acceptable(h) && (h.fin ==> chunks == [])
    requires FinLast(chunks)
    ensures !Acceptable(JoinAll(h, chunks))
    decreases |chunks|
  {
    if chunks != [] {
      ConnectStable(h.data, chunks[0].data);
      RejectedStaysRejected(Join(h, chunks[0].data, chunks[0].fin), chunks[1..]);
    }
  }

  /** Fed chunk by chunk, a stream ends up accepted exactly when the whole of it is acceptable, in the state owed. */
  lemma {:induction false} FeedSettles(v: View, h: Stream, chunks: seq<Chunk>)
    requires Settled(v, h) && (h.fin ==> chunks == []) && FinLast(chunks)
    ensures Feed(v, chunks).Ok? <==> Acceptable(JoinAll(h, chunks))
    ensures Feed(v, chunks).Ok? ==> Settled(Feed(v, chunks).value, JoinAll(h, chunks))
    decreases |chunks|
  {
    hide TryParseConnect, LiveData;
    if chunks != [] {
      var next := Join(h, chunks[0].data, chunks[0].fin);
      LiveDataSettles(v, h, chunks[0].data, chunks[0].fin);
      var result := LiveData(v, chunks[0].data, chunks[0].fin);
      if result.Ok? {
        FeedSettles(result.value, next, chunks[1..]);
      } else {
        RejectedStaysRejected(next, chunks[1..]);
      }
    }
  }

  lemma {:induction false} JoinAllSplit(h: Stream, chunks: seq<Chunk>, split: nat)
    requires split <= |chunks|
    ensures JoinAll(h, chunks) == JoinAll(JoinAll(h, chunks[..split]), chunks[split..])
    decreases split
  {
    if split == 0 {
      assert chunks[0..] == chunks;
    } else {
      JoinAllSplit(Join(h, chunks[0].data, chunks[0].fin), chunks[1..], split - 1);
      assert chunks[..split][1..] == chunks[1..][..split - 1];
      assert chunks[1..][split - 1..] == chunks[split..];
    }
  }

  lemma {:induction false} FinSeen(h: Stream, chunks: seq<Chunk>)
    ensures JoinAll(h, chunks).fin <==> h.fin || exists i :: 0 <= i < |chunks| && chunks[i].fin
    decreases |chunks|
  {
    if chunks != [] {
      FinSeen(Join(h, chunks[0].data, chunks[0].fin), chunks[1..]);
      if i :| 0 <= i < |chunks[1..]| && chunks[1..][i].fin {
        assert chunks[i + 1].fin;
      }
      if i :| 0 <= i < |chunks| && chunks[i].fin {
        assert i == 0 || chunks[1..][i - 1].fin;
      }
    }
  }

  lemma NothingHeard()
    ensures TryParseConnect([]) == NeedMore && Settled(NOTHING, UNHEARD)
  {}

  /**
   Deferred equals live: however a stream is cut into chunks and whenever authentication
   succeeds, the connection survives in one case exactly if it does in the other, and the relay
   then gets the same target, the same bytes and the same end. The only exception is an empty
   stream whose FIN came before authentication.
   */
  lemma DeferredEqualsLive(chunks: seq<Chunk>, split: nat)
    requires split <= |chunks| && FinLast(chunks)
    requires JoinAll(UNHEARD, chunks[..split]) != Stream([], true)
    ensures Deferred(chunks, split).Ok? <==> Feed(NOTHING, chunks).Ok?
    ensures Deferred(chunks, split).Ok? ==>
              && Deferred(chunks, split).value.relay == Feed(NOTHING, chunks).value.relay
              && Deferred(chunks, split).value.open == Feed(NOTHING, chunks).value.open
  {
    hide TryParseConnect, LiveData;
    var retained, later := JoinAll(UNHEARD, chunks[..split]), chunks[split..];
    NothingHeard();
    FeedSettles(NOTHING, UNHEARD, chunks);
    JoinAllSplit(UNHEARD, chunks, split);
    FinSeen(UNHEARD, chunks[..split]);
    if retained.data == [] {
      FeedSettles(NOTHING, retained, later);
    } else {
      LiveDataSettles(NOTHING, UNHEARD, retained.data, retained.fin);
      assert Join(UNHEARD, retained.data, retained.fin) == retained;
      if LiveData(NOTHING, retained.data, retained.fin).Ok? {
        FeedSettles(LiveData(NOTHING, retained.data, retained.fin).value, retained, later);
      } else {
        RejectedStaysRejected(retained, later);
      }
    }
  }

  /** In the exceptional case they always differ: the replay drops such a stream, while live it ends the connection. */
  lemma EmptyFinDiffers(chunks: seq<Chunk>, split: nat)
    requires split <= |chunks| && FinLast(chunks)
    requires JoinAll(UNHEARD, chunks[..split]) == Stream([], true)
    ensures Deferred(chunks, split) == Ok(NOTHING)
    ensures Feed(NOTHING, chunks).Err?
  {
    FinSeen(UNHEARD, chunks[..split]);
    assert split == |chunks| && chunks[..split] == chunks;
    NothingHeard();
    FeedSettles(NOTHING, UNHEARD, chunks);
  }
}
