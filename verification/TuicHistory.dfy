/**
 The assembler explained by its history: what every push yields, told from the packets pushed
 before it and the times they came, without the groups the assembler keeps.
 */
module TuicHistory {
  import opened Bytes
  import opened Addresses
  import opened TuicCodec
  import opened TuicAssembler
  import opened TuicEndToEnd

  /** The fragments accepted for a packet not yet delivered or given up, in order, and when the last of them came. */
  datatype Gathered = Gathered(parts: seq<Packet>, last: nat)

  predicate InTime(last: nat, now: nat, timeout: nat) {
    timeout > 0 && now < last + timeout
  }

  /** A fragment of `k` that announces as many fragments as those gathered. */
  predicate Joins(parts: seq<Packet>, p: Packet, k: Key) {
    KeyOf(p) == k && p.fragTotal != 1 && (parts != [] ==> parts[0].fragTotal == p.fragTotal)
  }

  /** The fragment that counts under an id: the one that came last. */
  function Latest(parts: seq<Packet>, id: byte): (r: Option<Packet>) {
    if parts == [] then None
    else if parts[|parts| - 1].fragId == id then Some(parts[|parts| - 1])
    else Latest(parts[..|parts| - 1], id)
  }

  function TargetOf(parts: seq<Packet>): (r: Option<TargetAddr>) {
    var first := Latest(parts, 0);
    if first.Some? then first.value.target else None
  }

  predicate Complete(parts: seq<Packet>) {
    parts != [] && (forall id: byte :: id < parts[0].fragTotal ==> Latest(parts, id).Some?) && TargetOf(parts).Some?
  }

  /** The payloads of fragments 0 to `n - 1`. */
  function Payloads(parts: seq<Packet>, n: byte): (r: seq<byte>)
    requires forall id: byte :: id < n ==> Latest(parts, id).Some?
  {
    if n == 0 then [] else Payloads(parts, n - 1) + Latest(parts, n - 1).value.payload
  }

  function Rebuilt(parts: seq<Packet>): (p: Packet)
    requires Complete(parts)
  {
    Packet(parts[0].assocId, parts[0].pktId, 1, 0, TargetOf(parts), Payloads(parts, parts[0].fragTotal))
  }

  /** What is left of a gathering when a push comes: nothing, if nothing joined it for 30 seconds. */
  function StillThere(g: Gathered, now: nat): (r: seq<Packet>) {
    if InTime(g.last, now, 30_000) then g.parts else []
  }

  /** What has been gathered for a key, told from all that happened. */
  function GatheredBy(events: seq<Event>, k: Key): (r: Gathered)
    decreases |events|
  {
    if events == [] then Gathered([], 0)
    else
      var g := GatheredBy(events[..|events| - 1], k);
      match events[|events| - 1]
      case EvictEvent(now, timeout) => if InTime(g.last, now, timeout) then g else Gathered([], g.last)
      case PushEvent(p, now) =>
        var parts := StillThere(g, now);
        if !Joins(parts, p, k) then Gathered(parts, g.last)
        else if Complete(parts + [p]) then Gathered([], now)
        else Gathered(parts + [p], now)
  }

  /** What a push must yield. */
  function Expected(events: seq<Event>, p: Packet, now: nat): (r: Result<Option<Packet>>) {
    var parts := StillThere(GatheredBy(events, KeyOf(p)), now);
    if p.fragTotal == 1 then if p.target.Some? then Ok(Some(p)) else Err
    else if !Joins(parts, p, KeyOf(p)) then Err
    else if Complete(parts + [p]) then Ok(Some(Rebuilt(parts + [p])))
    else Ok(None)
  }

  /** Packets with ids below their totals, as `ParsePacket` guarantees. */
  predicate Parsed(events: seq<Event>) {
    forall i :: 0 <= i < |events| && events[i].PushEvent? ==> events[i].packet.fragId < events[i].packet.fragTotal
  }

  // Groups hold what was gathered

  ghost predicate HoldsParts(group: Group, parts: seq<Packet>, last: nat, k: Key)
    requires parts != []
  {
    && (group.assocId, group.pktId) == k == KeyOf(parts[0])
    && group.fragTotal == parts[0].fragTotal && group.lastUsed == last && group.target == TargetOf(parts)
    && (forall id: byte :: id in group.fragments <==> Latest(parts, id).Some?)
    && (forall id: byte :: id in group.fragments ==> group.fragments[id] == Latest(parts, id).value.payload)
  }

  ghost predicate Explains(g: Gathered, m: Groups, k: Key) {
    if g.parts == [] then k !in m else k in m && HoldsParts(m[k], g.parts, g.last, k)
  }

  lemma LatestSnoc(parts: seq<Packet>, p: Packet, id: byte)
    ensures Latest(parts + [p], id) == if p.fragId == id then Some(p) else Latest(parts, id)
  {
    assert (parts + [p])[..|parts|] == parts;
  }

  lemma EvictionExplained(g: Gathered, m: Groups, k: Key, now: nat, timeout: nat)
    requires Explains(g, m, k)
    ensures Explains(if InTime(g.last, now, timeout) then g else Gathered([], g.last), Evicted(m, now, timeout), k)
  {
    hide HoldsParts;
    assert g.parts != [] ==> m[k].lastUsed == g.last by {
      if g.parts != [] {
        UsedLast(m[k], g.parts, g.last, k);
      }
    }
  }

  lemma UsedLast(group: Group, parts: seq<Packet>, last: nat, k: Key)
    requires parts != [] && HoldsParts(group, parts, last, k)
    ensures group.lastUsed == last && group.fragTotal == parts[0].fragTotal
  {}

  lemma RecordedHolds(group: Group, parts: seq<Packet>, last: nat, k: Key, p: Packet, now: nat)
    requires parts != [] && HoldsParts(group, parts, last, k) && Joins(parts, p, k)
    ensures HoldsParts(Recorded(group, p, now), parts + [p], now, k)
  {
    forall id ensures Latest(parts + [p], id) == if p.fragId == id then Some(p) else Latest(parts, id) {
      LatestSnoc(parts, p, id);
    }
    hide Latest;
  }

  lemma FirstHolds(p: Packet, k: Key, now: nat)
    requires KeyOf(p) == k
    ensures HoldsParts(Recorded(NewGroup(p, now), p, now), [p], now, k)
  {
    forall id ensures Latest([p], id) == if p.fragId == id then Some(p) else None {
      assert [] + [p] == [p];
      LatestSnoc([], p, id);
    }
    hide Latest;
  }

  lemma {:induction false} TakesPayloads(group: Group, parts: seq<Packet>, last: nat, k: Key, n: byte)
    requires parts != [] && HoldsParts(group, parts, last, k) && n <= group.fragTotal
    requires forall id: byte :: id < group.fragTotal ==> Latest(parts, id).Some?
    ensures TakeFragments(group.fragments, 0, group.fragTotal, []) ==
            TakeFragments(map id | id in group.fragments && id >= n :: group.fragments[id], n, group.fragTotal, Payloads(parts, n))
  {
    hide Latest;
    if n == 0 {
      assert (map id | id in group.fragments && id >= 0 :: group.fragments[id]) == group.fragments;
    } else {
      TakesPayloads(group, parts, last, k, n - 1);
      var rest := map id | id in group.fragments && id >= n - 1 :: group.fragments[id];
      assert rest - {n - 1} == map id | id in group.fragments && id >= n :: group.fragments[id];
    }
  }

  lemma FullIsComplete(group: Group, parts: seq<Packet>, last: nat, k: Key)
    requires parts != [] && HoldsParts(group, parts, last, k)
    ensures group.fragments.Keys == Ids(group.fragTotal) && group.target.Some? ==> Complete(parts)
    ensures group.fragments.Keys <= Ids(group.fragTotal) && Complete(parts) ==> group.fragments.Keys == Ids(group.fragTotal) && group.target.Some?
  {
    hide Latest;
  }

  lemma DeliversRebuilt(m: Groups, p: Packet, now: nat, parts: seq<Packet>, k: Key)
    requires parts != [] && Complete(parts) && p.fragTotal != 1 && KeyOf(p) == k
    requires var g := Recorded(if k in m then m[k] else NewGroup(p, now), p, now);
             g.fragTotal == p.fragTotal && HoldsParts(g, parts, now, k) && g.fragments.Keys == Ids(g.fragTotal)
    ensures PushedAt(m, p, now).1 == Ok(Some(Rebuilt(parts)))
  {
    var g := Recorded(if k in m then m[k] else NewGroup(p, now), p, now);
    hide Latest, Payloads;
    AllPresent(g.fragments.Keys, g.fragTotal);
    RecordedGroup(m, p, now);
    hide PushedAt;
    TakesPayloads(g, parts, now, k, g.fragTotal);
  }

  lemma JoinExplained(m: Groups, parts: seq<Packet>, last: nat, p: Packet, now: nat)
    requires WellFormed(m) && p.fragId < p.fragTotal && Joins(parts, p, KeyOf(p)) && Explains(Gathered(parts, last), m, KeyOf(p))
    ensures var all := parts + [p];
            && PushedAt(m, p, now).1 == (if Complete(all) then Ok(Some(Rebuilt(all))) else Ok(None))
            && Explains(if Complete(all) then Gathered([], now) else Gathered(all, now), PushedAt(m, p, now).0, KeyOf(p))
  {
    var k, all := KeyOf(p), parts + [p];
    hide Complete, Rebuilt, HoldsParts, TakeFragments, PushedAt;
    var group := if k in m then m[k] else NewGroup(p, now);
    if parts == [] {
      assert all == [p];
      FirstHolds(p, k, now);
    } else {
      UsedLast(group, parts, last, k);
      RecordedHolds(group, parts, last, k, p, now);
    }
    var g := Recorded(group, p, now);
    assert g.fragments.Keys <= Ids(g.fragTotal);
    FullIsComplete(g, all, now, k);
    PushDelivers(m, p, now);
    if Complete(all) {
      DeliversRebuilt(m, p, now, all, k);
    }
  }

  lemma OthersExplained(m: Groups, g: Gathered, p: Packet, now: nat, k: Key)
    requires WellFormed(m) && p.fragId < p.fragTotal && Explains(g, m, k) && !Joins(g.parts, p, k)
    ensures Explains(g, PushedAt(m, p, now).0, k)
    ensures KeyOf(p) == k ==> PushedAt(m, p, now).1 == if p.fragTotal == 1 && p.target.Some? then Ok(Some(p)) else Err
  {
    hide HoldsParts, TakeFragments, Recorded;
    if g.parts != [] {
      UsedLast(m[k], g.parts, g.last, k);
    }
  }

  lemma PushStepExplained(m: Groups, g: Gathered, p: Packet, now: nat, k: Key)
    requires WellFormed(m) && p.fragId < p.fragTotal && Explains(g, m, k)
    ensures var parts := StillThere(g, now);
            var after := if !Joins(parts, p, k) then Gathered(parts, g.last)
                         else if Complete(parts + [p]) then Gathered([], now) else Gathered(parts + [p], now);
            Explains(after, Pushed(m, p, now).0, k)
    ensures var parts := StillThere(g, now);
            KeyOf(p) == k ==>
              (Pushed(m, p, now).1 ==
               if p.fragTotal == 1 then (if p.target.Some? then Ok(Some(p)) else Err)
               else if !Joins(parts, p, k) then Err
               else if Complete(parts + [p]) then Ok(Some(Rebuilt(parts + [p]))) else Ok(None))
  {
    hide Explains, Complete, Rebuilt, PushedAt, WellFormed;
    var parts, kept := StillThere(g, now), Evicted(m, now, FRAGMENT_IDLE_TIMEOUT);
    EvictionExplained(g, m, k, now, FRAGMENT_IDLE_TIMEOUT);
    EvictionWellFormed(m, now, FRAGMENT_IDLE_TIMEOUT);
    if Joins(parts, p, k) {
      JoinExplained(kept, parts, g.last, p, now);
    } else {
      OthersExplained(kept, Gathered(parts, g.last), p, now, k);
    }
  }

  lemma EvictionWellFormed(m: Groups, now: nat, timeout: nat)
    requires WellFormed(m)
    ensures WellFormed(Evicted(m, now, timeout))
  {}

  lemma StepWellFormed(m: Groups, e: Event)
    requires WellFormed(m) && (e.PushEvent? ==> e.packet.fragId < e.packet.fragTotal)
    ensures WellFormed(Final(m, [e]))
    ensures Final(m, [e]) == if e.PushEvent? then Pushed(m, e.packet, e.now).0 else Evicted(m, e.now, e.timeout)
  {
    hide PushedAt, WellFormed;
    assert [e][1..] == [];
    EvictionWellFormed(m, e.now, if e.PushEvent? then FRAGMENT_IDLE_TIMEOUT else e.timeout);
    if e.PushEvent? {
      PushDelivers(Evicted(m, e.now, FRAGMENT_IDLE_TIMEOUT), e.packet, e.now);
    }
  }

  lemma {:induction false} HistoryExplainsGroups(events: seq<Event>, k: Key)
    requires Parsed(events)
    ensures WellFormed(Final(map[], events)) && Explains(GatheredBy(events, k), Final(map[], events), k)
    decreases |events|
  {
    hide Explains, Pushed, Evicted, WellFormed, Joins, Complete, InTime;
    if events == [] {
      NothingGathered(k);
    } else {
      var before, e := events[..|events| - 1], events[|events| - 1];
      assert events == before + [e];
      HistoryExplainsGroups(before, k);
      FinalAppend(map[], before, [e]);
      var m := Final(map[], before);
      StepWellFormed(m, e);
      match e {
        case PushEvent(p, now) => PushStepExplained(m, GatheredBy(before, k), p, now, k);
        case EvictEvent(now, timeout) => EvictionExplained(GatheredBy(before, k), m, k, now, timeout);
      }
    }
  }

  lemma NothingGathered(k: Key)
    ensures WellFormed(map[]) && Explains(Gathered([], 0), map[], k)
  {}

  /**
   Whatever was pushed before and whenever, a push yields what its history calls for: a whole packet as
   it is; an error if it announces another number of fragments than those gathered; the packet, once
   all of its fragments are there, with for every id the payload that came last; else nothing.
   */
  lemma PushExplained(events: seq<Event>, p: Packet, now: nat)
    requires Parsed(events) && p.fragId < p.fragTotal
    ensures Run(map[], events + [PushEvent(p, now)]) == Run(map[], events) + [(KeyOf(p), Expected(events, p, now))]
  {
    hide Pushed, GatheredBy, Explains, Joins, Complete, Rebuilt, StillThere, WellFormed;
    HistoryExplainsGroups(events, KeyOf(p));
    PushStepExplained(Final(map[], events), GatheredBy(events, KeyOf(p)), p, now, KeyOf(p));
    RunAppend(map[], events, [PushEvent(p, now)]);
    FirstPush(Final(map[], events), [PushEvent(p, now)]);
    assert [PushEvent(p, now)][1..] == [];
  }
}
