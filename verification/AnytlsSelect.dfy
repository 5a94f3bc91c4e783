/**
 How the pool of src/protocol/anytls/outbound.rs chooses a session while nothing else runs,
 on a snapshot of the sessions' counters. `AnytlsScan` ties it to the scans of the pool.
 */
module AnytlsSelect {
  import opened Arithmetic
  import opened Bytes

  datatype Entry = Entry(active: nat, lastUsed: nat)

  /** The configuration always sets exactly one of the two limits, and never to zero. */
  datatype Limit = MaxStreams(streams: nat) | MaxConnections(connections: nat)

  predicate Configured(limit: Limit) {
    match limit
    case MaxStreams(n) => n > 0
    case MaxConnections(n) => n > 0
  }

  /** Among the first `n` entries, the idle one used last; of equals, the later one. */
  function FreshestIdle(es: seq<Entry>, n: nat): (r: Option<nat>)
    requires n <= |es|
    ensures r.None? <==> forall j :: 0 <= j < n ==> es[j].active != 0
    ensures r.Some? ==>
              && r.value < n && es[r.value].active == 0
              && (forall j :: 0 <= j < n && es[j].active == 0 ==>
                    es[j].lastUsed < es[r.value].lastUsed || (es[j].lastUsed == es[r.value].lastUsed && j <= r.value))
  {
    if n == 0 then None
    else
      var best := FreshestIdle(es, n - 1);
      if es[n - 1].active == 0 && (best.None? || es[best.value].lastUsed <= es[n - 1].lastUsed) then Some(n - 1) else best
  }

  predicate Usable(e: Entry, max: Option<nat>) {
    e.active > 0 && (max.Some? ==> e.active < max.value)
  }

  predicate Busier(a: Entry, b: Entry) {
    a.active > b.active || (a.active == b.active && a.lastUsed < b.lastUsed)
  }

  /** Among the first `n` entries that are busy but below the limit, the least busy; of equals, the one used last, then the earlier. */
  function LeastBusy(es: seq<Entry>, max: Option<nat>, n: nat): (r: Option<nat>)
    requires n <= |es|
    ensures r.None? <==> forall j :: 0 <= j < n ==> !Usable(es[j], max)
    ensures r.Some? ==>
              && r.value < n && Usable(es[r.value], max)
              && (forall j :: 0 <= j < n && Usable(es[j], max) ==>
                    Busier(es[j], es[r.value]) || (!Busier(es[r.value], es[j]) && r.value <= j))
  {
    if n == 0 then None
    else
      var best := LeastBusy(es, max, n - 1);
      if Usable(es[n - 1], max) && (best.None? || Busier(es[best.value], es[n - 1])) then Some(n - 1) else best
  }

  function Select(es: seq<Entry>, limit: Limit): (r: Option<nat>)
    ensures r.Some? ==> r.value < |es|
  {
    var idle := FreshestIdle(es, |es|);
    if idle.Some? then idle
    else
      match limit
      case MaxConnections(m) => if |es| < m then None else LeastBusy(es, None, |es|)
      case MaxStreams(m) => LeastBusy(es, Some(m), |es|)
  }

  /** A new connection is opened only if the pool is below its limit, or every session is at its stream limit. */
  lemma ConnectOnlyWhenNeeded(es: seq<Entry>, limit: Limit)
    requires Configured(limit)
    ensures Select(es, limit).None? <==>
            && (forall j :: 0 <= j < |es| ==> es[j].active != 0)
            && match limit {
                 case MaxConnections(m) => |es| < m
                 case MaxStreams(m) => forall j :: 0 <= j < |es| ==> es[j].active >= m
               }
  {
    if limit.MaxConnections? && |es| >= limit.connections && FreshestIdle(es, |es|).None? {
      assert Usable(es[0], None);
    }
  }

  // Spreading streams over connections

  function Opened(e: Entry, now: nat): Entry {
    Entry(e.active + 1, now)
  }

  /** One `open_stream` under the pool lock. */
  function Open(es: seq<Entry>, limit: Limit, now: nat): (r: seq<Entry>)
  {
    match Select(es, limit)
    case Some(i) => es[i := Opened(es[i], now)]
    case None => es + [Entry(1, now)]
  }

  /** The pool after one opening per clock reading, nothing being closed. */
  function OpenAll(limit: Limit, clock: seq<nat>): (r: seq<Entry>) {
    if clock == [] then [] else Open(OpenAll(limit, clock[..|clock| - 1]), limit, clock[|clock| - 1])
  }

  /** How many entries have exactly `v` streams. */
  function CountOf(es: seq<Entry>, v: nat): (n: nat)
    ensures n <= |es|
  {
    if es == [] then 0 else (if es[0].active == v then 1 else 0) + CountOf(es[1..], v)
  }

  lemma {:induction false} CountSet(es: seq<Entry>, i: nat, e: Entry, v: nat)
    requires i < |es|
    ensures CountOf(es[i := e], v) == CountOf(es, v) - (if es[i].active == v then 1 else 0) + (if e.active == v then 1 else 0)
  {
    if i == 0 {
      assert es[0 := e][1..] == es[1..];
    } else {
      CountSet(es[1..], i - 1, e, v);
      assert es[i := e][1..] == es[1..][i - 1 := e];
    }
  }

  lemma {:induction false} CountAll(es: seq<Entry>, v: nat)
    ensures CountOf(es, v) == |es| <==> forall i :: 0 <= i < |es| ==> es[i].active == v
  {
    if es != [] {
      CountAll(es[1..], v);
      assert forall i :: 0 < i < |es| ==> es[i] == es[1..][i - 1];
    }
  }

  /** `n` streams over `m` connections: up to `m` one each, then evenly, `r` of them one ahead of the rest. */
  ghost predicate Even(es: seq<Entry>, m: nat, n: nat, q: nat, r: nat) {
    if n <= m then
      |es| == n && (forall i :: 0 <= i < |es| ==> es[i].active == 1) && (n < m ==> q == 0 && r == n) && (n == m ==> q == 1 && r == 0)
    else
      && |es| == m && n == q * m + r && r < m && q >= 1
      && (forall i :: 0 <= i < |es| ==> es[i].active == q || es[i].active == q + 1)
      && CountOf(es, q + 1) == r
  }

  lemma OpenLeastBusy(es: seq<Entry>, m: nat, now: nat, q: nat, r: nat)
    requires m > 0 && |es| == m && r < m && q >= 1
    requires forall i :: 0 <= i < |es| ==> es[i].active == q || es[i].active == q + 1
    requires CountOf(es, q + 1) == r
    ensures var es' := Open(es, MaxConnections(m), now);
            && |es'| == m
            && (forall i :: 0 <= i < |es'| ==> es'[i].active == q || es'[i].active == q + 1)
            && CountOf(es', q + 1) == r + 1
  {
    ConnectOnlyWhenNeeded(es, MaxConnections(m));
    CountAll(es, q + 1);
    var low :| 0 <= low < |es| && es[low].active != q + 1;
    var i := LeastBusy(es, None, |es|).value;
    assert Usable(es[low], None);
    assert es[i].active == q;
    CountSet(es, i, Opened(es[i], now), q + 1);
  }

  lemma OpenBelow(es: seq<Entry>, m: nat, now: nat)
    requires m > 0 && |es| < m && forall i :: 0 <= i < |es| ==> es[i].active == 1
    ensures Open(es, MaxConnections(m), now) == es + [Entry(1, now)]
  {
    ConnectOnlyWhenNeeded(es, MaxConnections(m));
  }

  /** One more stream keeps the spread even. */
  lemma OpenKeepsEven(es: seq<Entry>, m: nat, n: nat, q: nat, r: nat, now: nat) returns (q': nat, r': nat)
    requires m > 0 && Even(es, m, n, q, r)
    ensures Even(Open(es, MaxConnections(m), now), m, n + 1, q', r')
  {
    hide Open;
    var es' := Open(es, MaxConnections(m), now);
    if n < m {
      OpenBelow(es, m, now);
      q', r' := if n + 1 < m then 0 else 1, if n + 1 < m then n + 1 else 0;
    } else {
      assert n == m ==> q * m + r == n;
      if n == m {
        NoneAt(es, 1, 2);
      }
      OpenLeastBusy(es, m, now, q, r);
      if r + 1 < m {
        q', r' := q, r + 1;
      } else {
        q', r' := q + 1, 0;
        CountAll(es', q + 1);
        NoneAt(es', q + 1, q + 2);
        assert (q + 1) * m == q * m + m;
      }
    }
  }

  lemma {:induction false} NoneAt(es: seq<Entry>, v: nat, w: nat)
    requires v != w && forall i :: 0 <= i < |es| ==> es[i].active == v
    ensures CountOf(es, w) == 0
  {
    if es != [] {
      NoneAt(es[1..], v, w);
    }
  }

  lemma {:induction false} StaysEven(m: nat, clock: seq<nat>) returns (q: nat, r: nat)
    requires m > 0
    ensures Even(OpenAll(MaxConnections(m), clock), m, |clock|, q, r)
    decreases |clock|
  {
    if clock == [] {
      q, r := 0, 0;
    } else {
      hide Even, Open;
      var n := |clock| - 1;
      q, r := StaysEven(m, clock[..n]);
      q, r := OpenKeepsEven(OpenAll(MaxConnections(m), clock[..n]), m, n, q, r, clock[n]);
    }
  }

  /**
   Balance: after any number of openings with nothing closed, the pool has as many connections as
   it may use, and their stream counts differ from the mean by less than one.
   */
  lemma PoolIsBalanced(m: nat, clock: seq<nat>, i: nat)
    requires m > 0 && i < |OpenAll(MaxConnections(m), clock)|
    ensures var es, n := OpenAll(MaxConnections(m), clock), |clock|;
            && |es| == (if n < m then n else m)
            && (if n < m then es[i].active == 1
                else es[i].active == n / m || (n % m != 0 && es[i].active == n / m + 1))
  {
    hide Even, OpenAll;
    var q, r := StaysEven(m, clock);
    EvenShares(OpenAll(MaxConnections(m), clock), m, |clock|, q, r, i);
    if |clock| >= m {
      DivUnique(|clock|, m, q, r);
    }
  }

  lemma EvenShares(es: seq<Entry>, m: nat, n: nat, q: nat, r: nat, i: nat)
    requires m > 0 && i < |es| && Even(es, m, n, q, r)
    ensures |es| == (if n < m then n else m)
    ensures if n < m then es[i].active == 1
            else n == q * m + r && r < m && (es[i].active == q || (r != 0 && es[i].active == q + 1))
  {
    if n > m && es[i].active == q + 1 {
      HasOne(es, i, q + 1);
    }
  }

  lemma {:induction false} HasOne(es: seq<Entry>, j: nat, v: nat)
    requires j < |es| && es[j].active == v
    ensures CountOf(es, v) > 0
  {
    if j > 0 {
      HasOne(es[1..], j - 1, v);
    }
  }
}
