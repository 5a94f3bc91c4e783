/**
 The UDP fragment assembler of src/protocol/tuic/codec.rs.

 Groups of fragments are keyed by association and packet id, and every push
 first drops every group idle for too long, whatever its key. Two results are
 proved over whole runs: what one key observes does not depend on the traffic
 of the others, and a packet cut by `FragmentPacket` is rebuilt exactly.
 */
module TuicAssembler {
  import opened Bytes
  import opened Addresses
  import opened TuicCodec

  /** Milliseconds; the source's FRAGMENT_IDLE_TIMEOUT. */
  const FRAGMENT_IDLE_TIMEOUT: nat := 30_000

  type Key = (u16, u16)

  datatype Group = Group(assocId: u16, pktId: u16, fragTotal: byte, target: Option<TargetAddr>,
                         lastUsed: nat, fragments: map<byte, seq<byte>>)

  type Groups = map<Key, Group>

  function KeyOf(p: Packet): Key {
    (p.assocId, p.pktId)
  }

  /** `saturating_duration_since` */
  function Elapsed(now: nat, since: nat): nat {
    if now >= since then now - since else 0
  }

  function Evicted(m: Groups, now: nat, timeout: nat): (r: Groups) {
    map k | k in m && Elapsed(now, m[k].lastUsed) < timeout :: m[k]
  }

  /** Removes fragments `from`, `from + 1`, ... in order, appending them to `taken`, and stops at the first that is missing. */
  function TakeFragments(fragments: map<byte, seq<byte>>, from: nat, total: byte, taken: seq<byte>)
    : (r: (map<byte, seq<byte>>, Option<seq<byte>>))
    requires from <= total
    decreases total - from
  {
    if from == total then (fragments, Some(taken))
    else if from !in fragments then (fragments, None)
    else TakeFragments(fragments - {from}, from + 1, total, taken + fragments[from])
  }

  /** The group of a fragment after recording it. */
  function Recorded(group: Group, p: Packet, now: nat): (r: Group) {
    group.(lastUsed := now,
           target := if p.fragId == 0 then p.target else group.target,
           fragments := group.fragments[p.fragId := p.payload])
  }

  function NewGroup(p: Packet, now: nat): (r: Group) {
    Group(p.assocId, p.pktId, p.fragTotal, None, now, map[])
  }

  function PushedAt(m: Groups, p: Packet, now: nat): (r: (Groups, Result<Option<Packet>>)) {
    if p.fragTotal == 1 then
      (m, if p.target.Some? then Ok(Some(p)) else Err)
    else
      var key := KeyOf(p);
      var group := if key in m then m[key] else NewGroup(p, now);
      if group.fragTotal != p.fragTotal then (m, Err)
      else
        var g := Recorded(group, p, now);
        if |g.fragments| != g.fragTotal || g.target.None? then (m[key := g], Ok(None))
        else
          var (rest, payload) := TakeFragments(g.fragments, 0, g.fragTotal, []);
          match payload
          case None => (m[key := g.(fragments := rest)], Ok(None))
          case Some(bytes) => (m - {key}, Ok(Some(Packet(g.assocId, g.pktId, 1, 0, g.target, bytes))))
  }

  function Pushed(m: Groups, p: Packet, now: nat): (r: (Groups, Result<Option<Packet>>)) {
    PushedAt(Evicted(m, now, FRAGMENT_IDLE_TIMEOUT), p, now)
  }

  class PacketAssembler {
    var fragments: Groups

    constructor ()
      ensures fragments == map[]
    {
      fragments := map[];
    }

    method EvictIdle(now: nat, timeout: nat) returns (evicted: nat)
      modifies this
      ensures fragments == Evicted(old(fragments), now, timeout)
      ensures evicted == |old(fragments)| - |fragments|
    {
      var before := |fragments|;
      ghost var kept := fragments.Keys;
      fragments := map k | k in fragments && Elapsed(now, fragments[k].lastUsed) < timeout :: fragments[k];
      assert fragments.Keys <= kept;
      SubsetCard(fragments.Keys, kept);
      evicted := before - |fragments|;
    }

    method PushAt(p: Packet, now: nat) returns (r: Result<Option<Packet>>)
      modifies this
      ensures (fragments, r) == PushedAt(old(fragments), p, now)
    {
      if p.fragTotal == 1 {
        return if p.target.Some? then Ok(Some(p)) else Err;
      }
      var key := KeyOf(p);
      var entry := if key in fragments then fragments[key] else NewGroup(p, now);
      if entry.fragTotal != p.fragTotal {
        return Err;
      }
      entry := entry.(lastUsed := now);
      if p.fragId == 0 {
        entry := entry.(target := p.target);
      }
      entry := entry.(fragments := entry.fragments[p.fragId := p.payload]);
      fragments := fragments[key := entry];
      if |entry.fragments| != entry.fragTotal {
        return Ok(None);
      }
      if entry.target.None? {
        return Ok(None);
      }
      ghost var full := entry.fragments;
      var payload := [];
      var fragId := 0;
      while fragId < entry.fragTotal
        invariant 0 <= fragId <= entry.fragTotal
        invariant entry == Recorded(if key in old(fragments) then old(fragments)[key] else NewGroup(p, now), p, now)
                           .(fragments := entry.fragments)
        invariant fragments == old(fragments)[key := entry]
        invariant TakeFragments(full, 0, entry.fragTotal, []) ==
                  TakeFragments(entry.fragments, fragId, entry.fragTotal, payload)
      {
        if fragId !in entry.fragments {
          return Ok(None);
        }
        payload := payload + entry.fragments[fragId];
        entry := entry.(fragments := entry.fragments - {fragId});
        fragments := fragments[key := entry];
        fragId := fragId + 1;
      }
      fragments := fragments - {key};
      assert fragments == old(fragments) - {key};
      r := Ok(Some(Packet(entry.assocId, entry.pktId, 1, 0, entry.target, payload)));
    }

    method Push(p: Packet, now: nat) returns (r: Result<Option<Packet>>)
      modifies this
      ensures (fragments, r) == Pushed(old(fragments), p, now)
    {
      var _ := EvictIdle(now, FRAGMENT_IDLE_TIMEOUT);
      r := PushAt(p, now);
    }
  }

  lemma {:induction false} SubsetCard<T>(a: set<T>, b: set<T>)
    requires a <= b
    ensures |a| <= |b|
  {
    assert b == a + (b - a);
  }

  // Full groups

  ghost function Ids(n: nat): (s: set<byte>)
    requires n <= 0x100
    ensures forall i :: i in s <==> 0 <= i < n
  {
    if n == 0 then {} else Ids(n - 1) + {n - 1}
  }

  lemma {:induction false} IdsCard(n: nat)
    requires n <= 0x100
    ensures |Ids(n)| == n
  {
    if n > 0 {
      IdsCard(n - 1);
    }
  }

  /** Pigeonhole: `n` distinct ids below `n` are all of them. */
  lemma AllPresent(s: set<byte>, n: nat)
    requires n <= 0x100 && s <= Ids(n)
    ensures |s| == n <==> s == Ids(n)
  {
    IdsCard(n);
    if s != Ids(n) {
      var missing :| missing in Ids(n) && missing !in s;
      SubsetCard(s + {missing}, Ids(n));
    }
  }

  /** Groups filed under their own ids, holding only fragments that the announced total allows. */
  ghost predicate WellFormed(m: Groups) {
    forall k :: k in m ==>
      && k == (m[k].assocId, m[k].pktId)
      && m[k].fragTotal != 1
      && m[k].fragments.Keys <= Ids(m[k].fragTotal)
  }

  lemma {:induction false} TakeSucceeds(fragments: map<byte, seq<byte>>, from: nat, total: byte, taken: seq<byte>)
    requires from <= total
    requires forall i: byte :: from <= i < total ==> i in fragments
    ensures TakeFragments(fragments, from, total, taken).1.Some?
    decreases total - from
  {
    if from < total {
      TakeSucceeds(fragments - {from}, from + 1, total, taken + fragments[from]);
    }
  }

  /**
   With ids below the total, as `ParsePacket` guarantees, groups stay well formed, a push that
   fails changes nothing, and a group is delivered exactly when it is full and addressed: the
   assembler never discards part of a group.
   */
  lemma PushDelivers(m: Groups, p: Packet, now: nat)
    requires WellFormed(m) && p.fragId < p.fragTotal
    ensures WellFormed(PushedAt(m, p, now).0)
    ensures PushedAt(m, p, now).1.Err? ==> PushedAt(m, p, now).0 == m
    ensures var key := KeyOf(p);
            var g := Recorded(if key in m then m[key] else NewGroup(p, now), p, now);
            p.fragTotal != 1 && g.fragTotal == p.fragTotal ==>
              if g.fragments.Keys == Ids(g.fragTotal) && g.target.Some?
              then PushedAt(m, p, now).0 == m - {key} && PushedAt(m, p, now).1.value.Some?
              else PushedAt(m, p, now) == (m[key := g], Ok(None))
  {
    var key := KeyOf(p);
    var g := Recorded(if key in m then m[key] else NewGroup(p, now), p, now);
    if p.fragTotal != 1 && g.fragTotal == p.fragTotal {
      AllPresent(g.fragments.Keys, g.fragTotal);
      if g.fragments.Keys == Ids(g.fragTotal) {
        TakeSucceeds(g.fragments, 0, g.fragTotal, []);
      }
      RecordedGroup(m, p, now);
      hide PushedAt, TakeFragments;
    }
  }

  // Runs

  datatype Event = PushEvent(packet: Packet, now: nat) | EvictEvent(now: nat, timeout: nat)

  type Outcome = (Key, Result<Option<Packet>>)

  function Run(m: Groups, events: seq<Event>): (r: seq<Outcome>)
    decreases |events|
  {
    if events == [] then []
    else
      match events[0]
      case PushEvent(p, now) =>
        var (m', result) := Pushed(m, p, now);
        [(KeyOf(p), result)] + Run(m', events[1..])
      case EvictEvent(now, timeout) => Run(Evicted(m, now, timeout), events[1..])
  }

  function Final(m: Groups, events: seq<Event>): (r: Groups)
    decreases |events|
  {
    if events == [] then m
    else
      match events[0]
      case PushEvent(p, now) => Final(Pushed(m, p, now).0, events[1..])
      case EvictEvent(now, timeout) => Final(Evicted(m, now, timeout), events[1..])
  }

  /** The clock never goes back. */
  predicate Timely(events: seq<Event>, from: nat) {
    events == [] || (from <= events[0].now && Timely(events[1..], events[0].now))
  }

  /** A push of the key, or an eviction more eager than the one every push begins with. */
  predicate Matters(e: Event, k: Key) {
    match e
    case PushEvent(p, _) => KeyOf(p) == k
    case EvictEvent(_, timeout) => timeout < FRAGMENT_IDLE_TIMEOUT
  }

  /** What can matter to one key; other keys' packets and routine evictions are dropped. */
  function OnlyKey(events: seq<Event>, k: Key): (r: seq<Event>)
    ensures forall i :: 0 <= i < |r| ==> Matters(r[i], k)
  {
    if events == [] then []
    else if Matters(events[0], k) then [events[0]] + OnlyKey(events[1..], k)
    else OnlyKey(events[1..], k)
  }

  function OutcomesOf(outcomes: seq<Outcome>, k: Key): (r: seq<Outcome>) {
    if outcomes == [] then []
    else if outcomes[0].0 == k then [outcomes[0]] + OutcomesOf(outcomes[1..], k)
    else OutcomesOf(outcomes[1..], k)
  }

  ghost predicate SameAt(m: Groups, s: Groups, k: Key) {
    (k in m <==> k in s) && (k in m ==> m[k] == s[k])
  }

  /** The isolated assembler `s` may lag behind on evictions, but only on a group that is already stale. */
  ghost predicate Agree(m: Groups, s: Groups, k: Key, now: nat) {
    SameAt(m, s, k) || (k !in m && k in s && Elapsed(now, s[k].lastUsed) >= FRAGMENT_IDLE_TIMEOUT)
  }

  lemma PushIsLocal(m: Groups, s: Groups, k: Key, p: Packet, now: nat)
    requires SameAt(m, s, k)
    ensures KeyOf(p) == k ==> PushedAt(m, p, now).1 == PushedAt(s, p, now).1
    ensures KeyOf(p) == k ==> SameAt(PushedAt(m, p, now).0, PushedAt(s, p, now).0, k)
    ensures KeyOf(p) != k ==> SameAt(PushedAt(m, p, now).0, s, k)
  {}

  lemma EvictionAgrees(m: Groups, s: Groups, k: Key, now: nat, timeout: nat)
    requires Agree(m, s, k, now)
    ensures timeout >= FRAGMENT_IDLE_TIMEOUT ==> Agree(Evicted(m, now, timeout), s, k, now)
    ensures timeout < FRAGMENT_IDLE_TIMEOUT ==> SameAt(Evicted(m, now, timeout), Evicted(s, now, timeout), k)
    ensures SameAt(Evicted(m, now, FRAGMENT_IDLE_TIMEOUT), Evicted(s, now, FRAGMENT_IDLE_TIMEOUT), k)
  {}

  lemma StepAgrees(m: Groups, s: Groups, k: Key, p: Packet, now: nat)
    requires Agree(m, s, k, now)
    ensures KeyOf(p) == k ==> Pushed(m, p, now).1 == Pushed(s, p, now).1
    ensures KeyOf(p) == k ==> Agree(Pushed(m, p, now).0, Pushed(s, p, now).0, k, now)
    ensures KeyOf(p) != k ==> Agree(Pushed(m, p, now).0, s, k, now)
  {
    EvictionAgrees(m, s, k, now, FRAGMENT_IDLE_TIMEOUT);
    var m' := Evicted(m, now, FRAGMENT_IDLE_TIMEOUT);
    PushIsLocal(m', Evicted(s, now, FRAGMENT_IDLE_TIMEOUT), k, p, now);
    if KeyOf(p) != k {
      PushIsLocal(m', m', k, p, now);
    }
  }

  lemma {:induction false} RunsAgree(m: Groups, s: Groups, events: seq<Event>, k: Key, from: nat)
    requires Timely(events, from) && Agree(m, s, k, from)
    ensures OutcomesOf(Run(m, events), k) == Run(s, OnlyKey(events, k))
    decreases |events|
  {
    if events != [] {
      var now := events[0].now;
      match events[0] {
        case EvictEvent(_, timeout) =>
          EvictionAgrees(m, s, k, now, timeout);
          if timeout < FRAGMENT_IDLE_TIMEOUT {
            RunsAgree(Evicted(m, now, timeout), Evicted(s, now, timeout), events[1..], k, now);
            assert OnlyKey(events, k)[1..] == OnlyKey(events[1..], k);
          } else {
            RunsAgree(Evicted(m, now, timeout), s, events[1..], k, now);
          }
        case PushEvent(p, _) =>
          StepAgrees(m, s, k, p, now);
          var (m', result) := Pushed(m, p, now);
          assert ([(KeyOf(p), result)] + Run(m', events[1..]))[1..] == Run(m', events[1..]);
          if KeyOf(p) == k {
            RunsAgree(m', Pushed(s, p, now).0, events[1..], k, now);
            assert OnlyKey(events, k)[1..] == OnlyKey(events[1..], k);
          } else {
            RunsAgree(m', s, events[1..], k, now);
          }
      }
    }
  }

  /**
   Projection: over any run of pushes and evictions, the results one key sees are those of an
   assembler that is fed nothing but that key's packets and the evictions that come early.
   */
  lemma KeysAreIndependent(m: Groups, events: seq<Event>, k: Key)
    requires k !in m && Timely(events, 0)
    ensures OutcomesOf(Run(m, events), k) == Run(map[], OnlyKey(events, k))
  {
    RunsAgree(m, map[], events, k, 0);
  }

  // Reassembly of a cut packet

  /** The group holding exactly the pieces numbered by `seen`. */
  ghost function Partial(p: Packet, fs: seq<Packet>, seen: set<byte>, last: nat): (g: Group)
    requires IsCutOf(fs, p) && seen <= Ids(|fs|)
  {
    Group(p.assocId, p.pktId, |fs|, if 0 in seen then p.target else None, last, HeldOf(fs, seen))
  }

  /** The group of `p` in `m`, absent as long as no piece was seen. */
  ghost predicate Holds(m: Groups, p: Packet, fs: seq<Packet>, seen: set<byte>, last: nat)
    requires IsCutOf(fs, p) && seen <= Ids(|fs|)
  {
    if seen == {} then KeyOf(p) !in m else KeyOf(p) in m && m[KeyOf(p)] == Partial(p, fs, seen, last)
  }

  lemma {:induction false} TakeRebuilds(fs: seq<Packet>, fragments: map<byte, seq<byte>>, from: nat, taken: seq<byte>)
    requires |fs| <= 255 && from <= |fs|
    requires forall i: byte :: from <= i < |fs| ==> i in fragments && fragments[i] == fs[i].payload
    ensures TakeFragments(fragments, from, |fs|, taken).1 == Some(taken + Flatten(Payloads(fs)[from..]))
    decreases |fs| - from
  {
    if from < |fs| {
      TakeRebuilds(fs, fragments - {from}, from + 1, taken + fragments[from]);
      var rest := Flatten(Payloads(fs)[from + 1..]);
      assert Payloads(fs)[from..][1..] == Payloads(fs)[from + 1..];
      assert (taken + fragments[from]) + rest == taken + (fragments[from] + rest);
    } else {
      assert taken + [] == taken;
    }
  }

  lemma RecordPiece(p: Packet, fs: seq<Packet>, seen: set<byte>, last: nat, id: byte, now: nat)
    requires IsCutOf(fs, p) && seen <= Ids(|fs|) && id < |fs|
    ensures Recorded(if seen == {} then NewGroup(fs[id], now) else Partial(p, fs, seen, last), fs[id], now)
         == Partial(p, fs, seen + {id}, now)
  {
    assert fs[id].fragId == id && fs[id].fragTotal == |fs| && KeyOf(fs[id]) == KeyOf(p);
    assert id == 0 ==> fs[id].target == p.target;
    HeldWith(fs, seen, id);
    hide IsCutOf, Ids, HeldOf;
  }

  /** The payloads of the pieces in `seen`. */
  ghost function HeldOf(fs: seq<Packet>, seen: set<byte>): (r: map<byte, seq<byte>>)
    requires forall i :: i in seen ==> i < |fs|
    ensures r.Keys == seen
  {
    map i | i in seen :: fs[i].payload
  }

  lemma HeldWith(fs: seq<Packet>, seen: set<byte>, id: byte)
    requires id < |fs| && forall i :: i in seen ==> i < |fs|
    ensures HeldOf(fs, seen)[id := fs[id].payload] == HeldOf(fs, seen + {id})
    ensures seen == {} ==> HeldOf(fs, seen) == map[]
  {}

  lemma LastPiece(p: Packet, fs: seq<Packet>, now: nat)
    requires IsCutOf(fs, p)
    ensures TakeFragments(Partial(p, fs, Ids(|fs|), now).fragments, 0, |fs|, []).1 == Some(p.payload)
  {
    var held := Partial(p, fs, Ids(|fs|), now).fragments;
    assert forall i: byte :: i < |fs| ==> i in held && held[i] == fs[i].payload;
    assert Payloads(fs)[0..] == Payloads(fs);
    assert Flatten(Payloads(fs)) == p.payload;
    hide Flatten, Payloads, IsCutOf, TakeFragments, Ids;
    TakeRebuilds(fs, held, 0, []);
    assert [] + p.payload == p.payload;
  }

  lemma EvictionSpares(p: Packet, fs: seq<Packet>, m: Groups, seen: set<byte>, last: nat, now: nat)
    requires IsCutOf(fs, p) && seen <= Ids(|fs|) && Holds(m, p, fs, seen, last)
    requires seen != {} ==> Elapsed(now, last) < FRAGMENT_IDLE_TIMEOUT
    ensures Holds(Evicted(m, now, FRAGMENT_IDLE_TIMEOUT), p, fs, seen, last)
    ensures Evicted(m, now, FRAGMENT_IDLE_TIMEOUT).Keys <= m.Keys
  {}

  lemma PieceRecorded(p: Packet, fs: seq<Packet>, m: Groups, seen: set<byte>, last: nat, id: byte, now: nat)
    requires IsCutOf(fs, p) && p.fragTotal == 1 && p.fragId == 0 && p.target.Some?
    requires seen < Ids(|fs|) && id < |fs| && Holds(m, p, fs, seen, last)
    ensures PushedAt(m, fs[id], now) ==
            if seen + {id} == Ids(|fs|) then (m - {KeyOf(p)}, Ok(Some(p)))
            else (m[KeyOf(p) := Partial(p, fs, seen + {id}, now)], Ok(None))
  {
    var g := Partial(p, fs, seen + {id}, now);
    RecordPiece(p, fs, seen, last, id, now);
    AllPresent(seen + {id}, |fs|);
    assert g.fragments.Keys == seen + {id};
    assert |g.fragments| == |seen + {id}|;
    assert fs[id].fragTotal == |fs| != 1 && KeyOf(fs[id]) == KeyOf(p);
    if seen + {id} == Ids(|fs|) {
      LastPiece(p, fs, now);
      assert 0 in Ids(|fs|);
    }
    hide TakeFragments, Ids, Recorded, IsCutOf, HeldOf;
    RecordedGroup(m, fs[id], now);
    hide PushedAt;
  }

  lemma RecordedGroup(m: Groups, f: Packet, now: nat)
    requires f.fragTotal != 1 && (KeyOf(f) in m ==> m[KeyOf(f)].fragTotal == f.fragTotal)
    ensures var key := KeyOf(f);
            var g := Recorded(if key in m then m[key] else NewGroup(f, now), f, now);
            PushedAt(m, f, now) ==
            if |g.fragments| != g.fragTotal || g.target.None? then (m[key := g], Ok(None))
            else
              match TakeFragments(g.fragments, 0, g.fragTotal, [])
              case (rest, None) => (m[key := g.(fragments := rest)], Ok(None))
              case (_, Some(bytes)) => (m - {key}, Ok(Some(Packet(g.assocId, g.pktId, 1, 0, g.target, bytes))))
  {}

  /** One more piece: nothing comes out while a piece is missing, and the last missing piece brings out the packet. */
  lemma PieceArrives(p: Packet, fs: seq<Packet>, m: Groups, seen: set<byte>, last: nat, id: byte, now: nat)
    requires IsCutOf(fs, p) && p.fragTotal == 1 && p.fragId == 0 && p.target.Some?
    requires seen < Ids(|fs|) && id < |fs|
    requires Holds(m, p, fs, seen, last)
    requires seen != {} ==> Elapsed(now, last) < FRAGMENT_IDLE_TIMEOUT
    ensures seen + {id} == Ids(|fs|) ==> Pushed(m, fs[id], now).1 == Ok(Some(p)) && KeyOf(p) !in Pushed(m, fs[id], now).0
    ensures Pushed(m, fs[id], now).0.Keys <= m.Keys + {KeyOf(p)}
    ensures seen + {id} != Ids(|fs|) ==>
              && Pushed(m, fs[id], now).1 == Ok(None)
              && Holds(Pushed(m, fs[id], now).0, p, fs, seen + {id}, now)
  {
    EvictionSpares(p, fs, m, seen, last, now);
    hide IsCutOf, PushedAt, Evicted, Partial;
    PieceRecorded(p, fs, Evicted(m, now, FRAGMENT_IDLE_TIMEOUT), seen, last, id, now);
  }

  ghost function IdSet(ids: seq<byte>): (s: set<byte>) {
    if ids == [] then {} else {ids[0]} + IdSet(ids[1..])
  }

  lemma {:induction false} IdsBelow(ids: seq<byte>, n: nat)
    requires n <= 0x100 && forall i :: 0 <= i < |ids| ==> ids[i] < n
    ensures IdSet(ids) <= Ids(n)
  {
    if ids != [] {
      IdsBelow(ids[1..], n);
    }
  }

  /** Every id is below `n`, the last one completes the set of all ids, and no earlier one does. */
  ghost predicate LastCompletes(ids: seq<byte>, n: nat) {
    && 0 < n <= 255 && ids != []
    && IdSet(ids) == Ids(n)
    && IdSet(ids[..|ids| - 1]) != Ids(n)
  }

  /** `n` pushes of `k` that return nothing, then one that returns `p`. */
  function DeliveredAfter(n: nat, k: Key, p: Packet): (r: seq<Outcome>) {
    seq(n, _ => (k, Ok(None))) + [(k, Ok(Some(p)))]
  }

  /** Consecutive pushes are less than the idle timeout apart. */
  predicate Brisk(events: seq<Event>) {
    forall i :: 0 <= i < |events| - 1 ==> Elapsed(events[i + 1].now, events[i].now) < FRAGMENT_IDLE_TIMEOUT
  }

  /** The pieces `ids`, after those in `seen`, leave none out, and the last of them is the first to do so. */
  ghost predicate Completes(seen: set<byte>, ids: seq<byte>, n: nat) {
    && n <= 255 && ids != [] && seen <= Ids(n)
    && (forall i :: 0 <= i < |ids| ==> ids[i] < n)
    && seen + IdSet(ids) == Ids(n)
    && seen + IdSet(ids[..|ids| - 1]) != Ids(n)
  }

  lemma FirstOfMany(seen: set<byte>, ids: seq<byte>, n: nat)
    requires Completes(seen, ids, n)
    ensures seen < Ids(n) && ids[0] < n
    ensures |ids| == 1 ==> seen + {ids[0]} == Ids(n)
    ensures |ids| > 1 ==> seen + {ids[0]} != Ids(n) && Completes(seen + {ids[0]}, ids[1..], n)
  {
    var front := ids[..|ids| - 1];
    IdsBelow(front, n);
    if |ids| > 1 {
      assert front[1..] == ids[1..][..|ids[1..]| - 1];
    }
  }

  /** Pushes of the pieces `ids`, not too far apart. */
  ghost predicate Carries(events: seq<Event>, fs: seq<Packet>, ids: seq<byte>) {
    && |events| == |ids| && Brisk(events)
    && (forall i :: 0 <= i < |ids| ==> ids[i] < |fs| && events[i].PushEvent? && events[i].packet == fs[ids[i]])
  }

  lemma CarriesOn(events: seq<Event>, fs: seq<Packet>, ids: seq<byte>)
    requires Carries(events, fs, ids) && ids != []
    ensures Carries(events[1..], fs, ids[1..])
    ensures |ids| > 1 ==> Elapsed(events[1].now, events[0].now) < FRAGMENT_IDLE_TIMEOUT
  {}

  lemma DeliveredStep(n: nat, k: Key, p: Packet)
    ensures DeliveredAfter(n + 1, k, p) == [(k, Ok(None))] + DeliveredAfter(n, k, p)
  {}

  lemma FirstPush(m: Groups, events: seq<Event>)
    requires events != [] && events[0].PushEvent?
    ensures var (m', result) := Pushed(m, events[0].packet, events[0].now);
            && Run(m, events) == [(KeyOf(events[0].packet), result)] + Run(m', events[1..])
            && Final(m, events) == Final(m', events[1..])
  {}

  /** The group of `p` is ready for the pieces `ids` that `events` bring. */
  ghost predicate Ready(p: Packet, fs: seq<Packet>, m: Groups, seen: set<byte>, last: nat, events: seq<Event>, ids: seq<byte>) {
    && IsCutOf(fs, p) && p.fragTotal == 1 && p.fragId == 0 && p.target.Some?
    && Carries(events, fs, ids) && Completes(seen, ids, |fs|)
    && Holds(m, p, fs, seen, last)
    && (seen != {} ==> Elapsed(events[0].now, last) < FRAGMENT_IDLE_TIMEOUT)
  }

  lemma FirstPiece(p: Packet, fs: seq<Packet>, m: Groups, seen: set<byte>, last: nat, events: seq<Event>, ids: seq<byte>)
    requires Ready(p, fs, m, seen, last, events, ids)
    ensures |events| == |ids| > 0 && events[0].PushEvent?
    ensures KeyOf(events[0].packet) == KeyOf(p)
    ensures var (m', result) := Pushed(m, events[0].packet, events[0].now);
            && m'.Keys <= m.Keys + {KeyOf(p)}
            && if |ids| == 1 then result == Ok(Some(p)) && KeyOf(p) !in m'
               else result == Ok(None) && Ready(p, fs, m', seen + {ids[0]}, events[0].now, events[1..], ids[1..])
  {
    FirstOfMany(seen, ids, |fs|);
    CarriesOn(events, fs, ids);
    assert KeyOf(fs[ids[0]]) == KeyOf(p);
    hide IsCutOf, Pushed, Holds, Completes;
    PieceArrives(p, fs, m, seen, last, ids[0], events[0].now);
  }

  lemma {:induction false} PiecesArrive(p: Packet, fs: seq<Packet>, m: Groups, seen: set<byte>, last: nat,
                                        events: seq<Event>, ids: seq<byte>)
    requires Ready(p, fs, m, seen, last, events, ids)
    ensures ids != [] && Run(m, events) == DeliveredAfter(|ids| - 1, KeyOf(p), p)
    ensures Final(m, events).Keys <= m.Keys - {KeyOf(p)}
    decreases |ids|
  {
    hide Ready, Pushed;
    FirstPiece(p, fs, m, seen, last, events, ids);
    FirstPush(m, events);
    if |ids| == 1 {
      assert events[1..] == [];
    } else {
      hide Run, Final;
      PiecesArrive(p, fs, Pushed(m, events[0].packet, events[0].now).0, seen + {ids[0]}, events[0].now, events[1..], ids[1..]);
      DeliveredStep(|ids| - 2, KeyOf(p), p);
    }
  }

  lemma WholeArrives(p: Packet, events: seq<Event>, ids: seq<byte>)
    requires p.fragTotal == 1 && p.target.Some?
    requires LastCompletes(ids, 1)
    requires Carries(events, [p], ids)
    ensures Run(map[], events) == DeliveredAfter(|ids| - 1, KeyOf(p), p) && Final(map[], events) == map[]
  {
    var front := ids[..|ids| - 1];
    assert front != [] ==> front[0] == 0 && IdSet(front) >= {0};
    IdsBelow(front, 1);
    assert |ids| == 1 && events[1..] == [];
    assert Run(map[], events) == [(KeyOf(p), Ok(Some(p)))] + Run(Pushed(map[], p, events[0].now).0, []);
  }

  /** The pieces of a packet, whole or cut, bring the packet out at the last missing piece and leave nothing behind. */
  lemma AllArrive(p: Packet, fs: seq<Packet>, events: seq<Event>, ids: seq<byte>)
    requires p.fragTotal == 1 && p.fragId == 0 && p.target.Some? && (fs == [p] || IsCutOf(fs, p))
    requires Carries(events, fs, ids) && LastCompletes(ids, |fs|)
    ensures Run(map[], events) == DeliveredAfter(|ids| - 1, KeyOf(p), p) && Final(map[], events) == map[]
  {
    if fs == [p] {
      WholeArrives(p, events, ids);
    } else {
      hide Run, Final;
      PiecesArrive(p, fs, map[], {}, 0, events, ids);
      assert Final(map[], events).Keys == {};
    }
  }

  /** Each event brings the piece of `p` that it was parsed from. */
  ghost predicate FromWire(p: Packet, maxSize: nat, events: seq<Event>, ids: seq<byte>)
    requires FragmentPacket(p, maxSize).Ok?
  {
    var fs := FragmentPacket(p, maxSize).value;
    && |events| == |ids|
    && (forall i :: 0 <= i < |ids| ==>
          ids[i] < |fs| && events[i].PushEvent? && ParsePacket(Wire(fs[ids[i]])) == Ok(events[i].packet))
  }

  lemma WireCarries(p: Packet, maxSize: nat, events: seq<Event>, ids: seq<byte>)
    requires FragmentPacket(p, maxSize).Ok? && FromWire(p, maxSize, events, ids) && Brisk(events)
    ensures Carries(events, FragmentPacket(p, maxSize).value, ids)
  {
    var fs := FragmentPacket(p, maxSize).value;
    FragmentsFitAndRebuild(p, maxSize);
    hide FragmentPacket, ParsePacket, EncodePacket;
    forall i | 0 <= i < |ids| ensures events[i].packet == fs[ids[i]] {
      PacketRoundTrip(fs[ids[i]], []);
      assert Wire(fs[ids[i]]) + [] == Wire(fs[ids[i]]);
    }
  }

  /**
   Round trip over the wire: a whole addressed packet, cut to any limit that works, encoded,
   parsed and pushed in any order, with repeats and with any other keys' traffic in between,
   comes out exactly once, unchanged, at the arrival of the last missing piece.
   */
  lemma FragmentRoundTrip(p: Packet, maxSize: nat, m: Groups, events: seq<Event>, ids: seq<byte>)
    requires p.fragTotal == 1 && p.fragId == 0 && p.target.Some?
    requires FragmentPacket(p, maxSize).Ok?
    requires KeyOf(p) !in m && Timely(events, 0)
    requires Brisk(OnlyKey(events, KeyOf(p))) && FromWire(p, maxSize, OnlyKey(events, KeyOf(p)), ids)
    requires LastCompletes(ids, |FragmentPacket(p, maxSize).value|)
    ensures OutcomesOf(Run(m, events), KeyOf(p)) == DeliveredAfter(|ids| - 1, KeyOf(p), p)
  {
    FragmentsFitAndRebuild(p, maxSize);
    hide FragmentPacket, FromWire, Carries, Run;
    KeysAreIndependent(m, events, KeyOf(p));
    WireCarries(p, maxSize, OnlyKey(events, KeyOf(p)), ids);
    AllArrive(p, FragmentPacket(p, maxSize).value, OnlyKey(events, KeyOf(p)), ids);
  }
}
